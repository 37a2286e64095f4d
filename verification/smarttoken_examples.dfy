/**
 * Worked examples: the subtokens of the tokens that smarttoken_test.go lists,
 * with the range tables that test registers (Latin, then Cyrillic) and the
 * depth its policy (10, 10, 18, 2) gives for each token's length.
 */
module SmartTokenExamples {
  import opened SmartTokens
  import opened DepthPolicy

  /** The lower- and upper-case basic Latin letters (part of unicode.Latin). */
  const Latin: RangeTable := set c: char | 'a' <= c <= 'z' || 'A' <= c <= 'Z'

  /** The basic Russian alphabet (part of unicode.Cyrillic). */
  const Cyrillic: RangeTable := set c: char | '\U{410}' <= c <= '\U{44F}'

  /**
   * The categories for the runes of the examples: the letters above and the
   * CJK unified ideographs, the ASCII digits and the full stop. '☭' is in none
   * of them.
   */
  const Categories: Unicode := Unicode(
    set c: char | 'a' <= c <= 'z' || 'A' <= c <= 'Z' || '\U{410}' <= c <= '\U{44F}' || '\U{4E00}' <= c <= '\U{9FFF}',
    set c: char | '0' <= c <= '9',
    {'.'})

  /** AddRangeTable(unicode.Latin) followed by AddRangeTable(unicode.Cyrillic). */
  const Tables: seq<RangeTable> := [Latin, Cyrillic]


  const WordToken: seq<Rune> := "hello"

  /** The keys smarttoken_test.go:55-57 lists for "hello". */
  const WordListed: set<seq<Rune>> := {
    "hello"
  }

  /** The boundaries among the first 4 runes of "hello". */
  lemma WordScan4()
    ensures LocalBoundaries(Categories, Tables, WordToken, 4) == [0]
  {
    var p := WordToken;
    assert RuneClassOf(Categories, 'e') == Letter && TableIndex(Tables, 'e') == 0;
    assert RuneClassOf(Categories, 'h') == Letter && TableIndex(Tables, 'h') == 0;
    assert RuneClassOf(Categories, 'l') == Letter && TableIndex(Tables, 'l') == 0;
    assert RuneClassOf(Categories, 'o') == Letter && TableIndex(Tables, 'o') == 0;
    assert p[0] == 'h' && p[1] == 'e' && p[2] == 'l' && p[3] == 'l';
    assert LocalBoundaries(Categories, Tables, p, 1) == [0];
    assert LocalBoundaries(Categories, Tables, p, 2) == [0];
    assert LocalBoundaries(Categories, Tables, p, 3) == [0];
    assert LocalBoundaries(Categories, Tables, p, 4) == [0];
  }

  /** The edges of "hello": one run of Latin letters. */
  lemma WordEdges()
    ensures Edges(Categories, Tables, WordToken) == [0, 5]
  {
    var p := WordToken;
    BoundariesByNeighbours(Categories, Tables, p, |p|);
    assert RuneClassOf(Categories, 'e') == Letter && TableIndex(Tables, 'e') == 0;
    assert RuneClassOf(Categories, 'h') == Letter && TableIndex(Tables, 'h') == 0;
    assert RuneClassOf(Categories, 'l') == Letter && TableIndex(Tables, 'l') == 0;
    assert RuneClassOf(Categories, 'o') == Letter && TableIndex(Tables, 'o') == 0;
    WordScan4();
    assert p[3] == 'l' && p[4] == 'o';
    assert LocalBoundaries(Categories, Tables, p, 5) == [0];
    assert p[..|p|] == p;
  }

  /** The slices from edge 0 to a later edge at most 10 further are listed. */
  lemma WordSlicesFrom0(i: int, j: int)
    requires 0 <= i && i < j < 2 && j - i <= 10
    ensures WordToken[[0, 5][i]..[0, 5][j]] in WordListed
  {
    var p, e := WordToken, [0, 5];
    assert p[0..5] == "hello";
    assert i == 0 && j == 1;
    assert e[i] == 0 && e[j] == 5;
  }

  /** The listed keys of length 5 are slices between edges at most 10 apart. */
  lemma WordReached5(k: seq<Rune>)
    requires k in WordListed
    ensures k in Spans(WordToken, [0, 5], 10)
  {
    var p, e := WordToken, [0, 5];
    assert p[0..5] == "hello";
    assert k == "hello";
    assert Fits(p, e, 0, 1) && Piece(p, e, 0, 1) == k;
  }

  /**
   * "hello" (smarttoken_test.go:53-58): a single run gives the whole token and
   * nothing else.
   */
  lemma WordKeys()
    ensures GetDepth(NewPolicyDepth(10, 10, 18, 2), |WordToken|) == 10
    ensures SubtokenKeys(Categories, Tables, WordToken, 10) == WordListed
  {
    var p, e := WordToken, [0, 5];
    WordEdges();
    forall k | k in Spans(p, e, 10)
      ensures k in WordListed
    {
      var i, j :| 0 <= i < j < |e| && j - i <= 10 && Fits(p, e, i, j) && k == Piece(p, e, i, j);
      WordSlicesFrom0(i, j);
    }
    forall k | k in WordListed
      ensures k in Spans(p, e, 10)
    {
      WordReached5(k);
    }
  }

  const LettersToken: seq<Rune> := "a.b.c.d"

  /** The keys smarttoken_test.go:200-227 lists for "a.b.c.d". */
  const LettersListed: set<seq<Rune>> := {
    "a", "b", "c", "d", ".", "a.", "b.", "c.", ".b", ".c", ".d", "a.b", "b.c", "c.d", ".b.", ".c.",
    "a.b.", "b.c.", ".b.c", ".c.d", "a.b.c", "b.c.d", ".b.c.", "a.b.c.", ".b.c.d", "a.b.c.d"
  }

  /** The boundaries among the first 4 runes of "a.b.c.d". */
  lemma LettersScan4()
    ensures LocalBoundaries(Categories, Tables, LettersToken, 4) == [0, 1, 2, 3]
  {
    var p := LettersToken;
    assert RuneClassOf(Categories, '.') == Punct;
    assert RuneClassOf(Categories, 'a') == Letter && TableIndex(Tables, 'a') == 0;
    assert RuneClassOf(Categories, 'b') == Letter && TableIndex(Tables, 'b') == 0;
    assert RuneClassOf(Categories, 'c') == Letter && TableIndex(Tables, 'c') == 0;
    assert RuneClassOf(Categories, 'd') == Letter && TableIndex(Tables, 'd') == 0;
    assert p[0] == 'a' && p[1] == '.' && p[2] == 'b' && p[3] == '.';
    assert LocalBoundaries(Categories, Tables, p, 1) == [0];
    assert LocalBoundaries(Categories, Tables, p, 2) == [0, 1];
    assert LocalBoundaries(Categories, Tables, p, 3) == [0, 1, 2];
    assert LocalBoundaries(Categories, Tables, p, 4) == [0, 1, 2, 3];
  }

  /** The edges of "a.b.c.d": every rune starts a segment. */
  lemma LettersEdges()
    ensures Edges(Categories, Tables, LettersToken) == [0, 1, 2, 3, 4, 5, 6, 7]
  {
    var p := LettersToken;
    BoundariesByNeighbours(Categories, Tables, p, |p|);
    assert RuneClassOf(Categories, '.') == Punct;
    assert RuneClassOf(Categories, 'a') == Letter && TableIndex(Tables, 'a') == 0;
    assert RuneClassOf(Categories, 'b') == Letter && TableIndex(Tables, 'b') == 0;
    assert RuneClassOf(Categories, 'c') == Letter && TableIndex(Tables, 'c') == 0;
    assert RuneClassOf(Categories, 'd') == Letter && TableIndex(Tables, 'd') == 0;
    LettersScan4();
    assert p[3] == '.' && p[4] == 'c' && p[5] == '.' && p[6] == 'd';
    assert LocalBoundaries(Categories, Tables, p, 5) == [0, 1, 2, 3, 4];
    assert LocalBoundaries(Categories, Tables, p, 6) == [0, 1, 2, 3, 4, 5];
    assert LocalBoundaries(Categories, Tables, p, 7) == [0, 1, 2, 3, 4, 5, 6];
    assert p[..|p|] == p;
  }

  /** The slices from edge 0 to a later edge at most 10 further are listed. */
  lemma LettersSlicesFrom0(i: int, j: int)
    requires 0 <= i <= 0 && i < j < 8 && j - i <= 10
    ensures LettersToken[[0, 1, 2, 3, 4, 5, 6, 7][i]..[0, 1, 2, 3, 4, 5, 6, 7][j]] in LettersListed
  {
    var p, e := LettersToken, [0, 1, 2, 3, 4, 5, 6, 7];
    assert p[0..1] == "a";
    assert p[0..2] == "a.";
    assert p[0..3] == "a.b";
    assert p[0..4] == "a.b.";
    assert p[0..5] == "a.b.c";
    assert p[0..6] == "a.b.c.";
    assert p[0..7] == "a.b.c.d";
    if i == 0 && j == 1 {
      assert e[i] == 0 && e[j] == 1;
    } else if i == 0 && j == 2 {
      assert e[i] == 0 && e[j] == 2;
    } else if i == 0 && j == 3 {
      assert e[i] == 0 && e[j] == 3;
    } else if i == 0 && j == 4 {
      assert e[i] == 0 && e[j] == 4;
    } else if i == 0 && j == 5 {
      assert e[i] == 0 && e[j] == 5;
    } else if i == 0 && j == 6 {
      assert e[i] == 0 && e[j] == 6;
    } else {
      assert i == 0 && j == 7;
      assert e[i] == 0 && e[j] == 7;
    }
  }

  /** The slices from edge 1 to a later edge at most 10 further are listed. */
  lemma LettersSlicesFrom1(i: int, j: int)
    requires i == 1 && i < j < 8 && j - i <= 10
    ensures LettersToken[[0, 1, 2, 3, 4, 5, 6, 7][i]..[0, 1, 2, 3, 4, 5, 6, 7][j]] in LettersListed
  {
    var p, e := LettersToken, [0, 1, 2, 3, 4, 5, 6, 7];
    assert p[1..2] == ".";
    assert p[1..3] == ".b";
    assert p[1..4] == ".b.";
    assert p[1..5] == ".b.c";
    assert p[1..6] == ".b.c.";
    assert p[1..7] == ".b.c.d";
    if i == 1 && j == 2 {
      assert e[i] == 1 && e[j] == 2;
    } else if i == 1 && j == 3 {
      assert e[i] == 1 && e[j] == 3;
    } else if i == 1 && j == 4 {
      assert e[i] == 1 && e[j] == 4;
    } else if i == 1 && j == 5 {
      assert e[i] == 1 && e[j] == 5;
    } else if i == 1 && j == 6 {
      assert e[i] == 1 && e[j] == 6;
    } else {
      assert i == 1 && j == 7;
      assert e[i] == 1 && e[j] == 7;
    }
  }

  /** The slices from edge 2 to 3 to a later edge at most 10 further are listed. */
  lemma LettersSlicesFrom2(i: int, j: int)
    requires 2 <= i <= 3 && i < j < 8 && j - i <= 10
    ensures LettersToken[[0, 1, 2, 3, 4, 5, 6, 7][i]..[0, 1, 2, 3, 4, 5, 6, 7][j]] in LettersListed
  {
    var p, e := LettersToken, [0, 1, 2, 3, 4, 5, 6, 7];
    assert p[2..3] == "b";
    assert p[2..4] == "b.";
    assert p[2..5] == "b.c";
    assert p[2..6] == "b.c.";
    assert p[2..7] == "b.c.d";
    assert p[3..4] == ".";
    assert p[3..5] == ".c";
    assert p[3..6] == ".c.";
    assert p[3..7] == ".c.d";
    if i == 2 && j == 3 {
      assert e[i] == 2 && e[j] == 3;
    } else if i == 2 && j == 4 {
      assert e[i] == 2 && e[j] == 4;
    } else if i == 2 && j == 5 {
      assert e[i] == 2 && e[j] == 5;
    } else if i == 2 && j == 6 {
      assert e[i] == 2 && e[j] == 6;
    } else if i == 2 && j == 7 {
      assert e[i] == 2 && e[j] == 7;
    } else if i == 3 && j == 4 {
      assert e[i] == 3 && e[j] == 4;
    } else if i == 3 && j == 5 {
      assert e[i] == 3 && e[j] == 5;
    } else if i == 3 && j == 6 {
      assert e[i] == 3 && e[j] == 6;
    } else {
      assert i == 3 && j == 7;
      assert e[i] == 3 && e[j] == 7;
    }
  }

  /** The slices from edge 4 to 6 to a later edge at most 10 further are listed. */
  lemma LettersSlicesFrom4(i: int, j: int)
    requires 4 <= i && i < j < 8 && j - i <= 10
    ensures LettersToken[[0, 1, 2, 3, 4, 5, 6, 7][i]..[0, 1, 2, 3, 4, 5, 6, 7][j]] in LettersListed
  {
    var p, e := LettersToken, [0, 1, 2, 3, 4, 5, 6, 7];
    assert p[4..5] == "c";
    assert p[4..6] == "c.";
    assert p[4..7] == "c.d";
    assert p[5..6] == ".";
    assert p[5..7] == ".d";
    assert p[6..7] == "d";
    if i == 4 && j == 5 {
      assert e[i] == 4 && e[j] == 5;
    } else if i == 4 && j == 6 {
      assert e[i] == 4 && e[j] == 6;
    } else if i == 4 && j == 7 {
      assert e[i] == 4 && e[j] == 7;
    } else if i == 5 && j == 6 {
      assert e[i] == 5 && e[j] == 6;
    } else if i == 5 && j == 7 {
      assert e[i] == 5 && e[j] == 7;
    } else {
      assert i == 6 && j == 7;
      assert e[i] == 6 && e[j] == 7;
    }
  }

  /** The listed keys of length 1 are slices between edges at most 10 apart. */
  lemma LettersReached1(k: seq<Rune>)
    requires k in LettersListed && |k| <= 1
    ensures k in Spans(LettersToken, [0, 1, 2, 3, 4, 5, 6, 7], 10)
  {
    var p, e := LettersToken, [0, 1, 2, 3, 4, 5, 6, 7];
    assert p[0..1] == "a";
    assert p[2..3] == "b";
    assert p[4..5] == "c";
    assert p[6..7] == "d";
    assert p[1..2] == ".";
    if k == "a" {
      assert Fits(p, e, 0, 1) && Piece(p, e, 0, 1) == k;
    } else if k == "b" {
      assert Fits(p, e, 2, 3) && Piece(p, e, 2, 3) == k;
    } else if k == "c" {
      assert Fits(p, e, 4, 5) && Piece(p, e, 4, 5) == k;
    } else if k == "d" {
      assert Fits(p, e, 6, 7) && Piece(p, e, 6, 7) == k;
    } else {
      assert k == ".";
      assert Fits(p, e, 1, 2) && Piece(p, e, 1, 2) == k;
    }
  }

  /** The listed keys of length 2 are slices between edges at most 10 apart. */
  lemma LettersReached2(k: seq<Rune>)
    requires k in LettersListed && |k| == 2
    ensures k in Spans(LettersToken, [0, 1, 2, 3, 4, 5, 6, 7], 10)
  {
    var p, e := LettersToken, [0, 1, 2, 3, 4, 5, 6, 7];
    assert p[0..2] == "a.";
    assert p[2..4] == "b.";
    assert p[4..6] == "c.";
    assert p[1..3] == ".b";
    assert p[3..5] == ".c";
    assert p[5..7] == ".d";
    if k == "a." {
      assert Fits(p, e, 0, 2) && Piece(p, e, 0, 2) == k;
    } else if k == "b." {
      assert Fits(p, e, 2, 4) && Piece(p, e, 2, 4) == k;
    } else if k == "c." {
      assert Fits(p, e, 4, 6) && Piece(p, e, 4, 6) == k;
    } else if k == ".b" {
      assert Fits(p, e, 1, 3) && Piece(p, e, 1, 3) == k;
    } else if k == ".c" {
      assert Fits(p, e, 3, 5) && Piece(p, e, 3, 5) == k;
    } else {
      assert k == ".d";
      assert Fits(p, e, 5, 7) && Piece(p, e, 5, 7) == k;
    }
  }

  /** The listed keys of length 3 are slices between edges at most 10 apart. */
  lemma LettersReached3(k: seq<Rune>)
    requires k in LettersListed && |k| == 3
    ensures k in Spans(LettersToken, [0, 1, 2, 3, 4, 5, 6, 7], 10)
  {
    var p, e := LettersToken, [0, 1, 2, 3, 4, 5, 6, 7];
    assert p[0..3] == "a.b";
    assert p[2..5] == "b.c";
    assert p[4..7] == "c.d";
    assert p[1..4] == ".b.";
    assert p[3..6] == ".c.";
    if k == "a.b" {
      assert Fits(p, e, 0, 3) && Piece(p, e, 0, 3) == k;
    } else if k == "b.c" {
      assert Fits(p, e, 2, 5) && Piece(p, e, 2, 5) == k;
    } else if k == "c.d" {
      assert Fits(p, e, 4, 7) && Piece(p, e, 4, 7) == k;
    } else if k == ".b." {
      assert Fits(p, e, 1, 4) && Piece(p, e, 1, 4) == k;
    } else {
      assert k == ".c.";
      assert Fits(p, e, 3, 6) && Piece(p, e, 3, 6) == k;
    }
  }

  /** The listed keys of length 4 are slices between edges at most 10 apart. */
  lemma LettersReached4(k: seq<Rune>)
    requires k in LettersListed && |k| == 4
    ensures k in Spans(LettersToken, [0, 1, 2, 3, 4, 5, 6, 7], 10)
  {
    var p, e := LettersToken, [0, 1, 2, 3, 4, 5, 6, 7];
    assert p[0..4] == "a.b.";
    assert p[2..6] == "b.c.";
    assert p[1..5] == ".b.c";
    assert p[3..7] == ".c.d";
    if k == "a.b." {
      assert Fits(p, e, 0, 4) && Piece(p, e, 0, 4) == k;
    } else if k == "b.c." {
      assert Fits(p, e, 2, 6) && Piece(p, e, 2, 6) == k;
    } else if k == ".b.c" {
      assert Fits(p, e, 1, 5) && Piece(p, e, 1, 5) == k;
    } else {
      assert k == ".c.d";
      assert Fits(p, e, 3, 7) && Piece(p, e, 3, 7) == k;
    }
  }

  /** The listed keys of length 5 to 6 are slices between edges at most 10 apart. */
  lemma LettersReached5(k: seq<Rune>)
    requires k in LettersListed && 5 <= |k| <= 6
    ensures k in Spans(LettersToken, [0, 1, 2, 3, 4, 5, 6, 7], 10)
  {
    var p, e := LettersToken, [0, 1, 2, 3, 4, 5, 6, 7];
    assert p[0..5] == "a.b.c";
    assert p[2..7] == "b.c.d";
    assert p[1..6] == ".b.c.";
    assert p[0..6] == "a.b.c.";
    assert p[1..7] == ".b.c.d";
    if k == "a.b.c" {
      assert Fits(p, e, 0, 5) && Piece(p, e, 0, 5) == k;
    } else if k == "b.c.d" {
      assert Fits(p, e, 2, 7) && Piece(p, e, 2, 7) == k;
    } else if k == ".b.c." {
      assert Fits(p, e, 1, 6) && Piece(p, e, 1, 6) == k;
    } else if k == "a.b.c." {
      assert Fits(p, e, 0, 6) && Piece(p, e, 0, 6) == k;
    } else {
      assert k == ".b.c.d";
      assert Fits(p, e, 1, 7) && Piece(p, e, 1, 7) == k;
    }
  }

  /** The listed keys of length 7 are slices between edges at most 10 apart. */
  lemma LettersReached7(k: seq<Rune>)
    requires k in LettersListed && 7 <= |k|
    ensures k in Spans(LettersToken, [0, 1, 2, 3, 4, 5, 6, 7], 10)
  {
    var p, e := LettersToken, [0, 1, 2, 3, 4, 5, 6, 7];
    assert p[0..7] == "a.b.c.d";
    assert k == "a.b.c.d";
    assert Fits(p, e, 0, 7) && Piece(p, e, 0, 7) == k;
  }

  /**
   * "a.b.c.d" (smarttoken_test.go:198-228): seven one-rune segments and depth 10
   * give every slice between two edges, 26 distinct strings ("." occurs three
   * times).
   */
  lemma LettersKeys()
    ensures GetDepth(NewPolicyDepth(10, 10, 18, 2), |LettersToken|) == 10
    ensures SubtokenKeys(Categories, Tables, LettersToken, 10) == LettersListed
  {
    var p, e := LettersToken, [0, 1, 2, 3, 4, 5, 6, 7];
    LettersEdges();
    forall k | k in Spans(p, e, 10)
      ensures k in LettersListed
    {
      var i, j :| 0 <= i < j < |e| && j - i <= 10 && Fits(p, e, i, j) && k == Piece(p, e, i, j);
      if i <= 0 {
        LettersSlicesFrom0(i, j);
      } else if i <= 1 {
        LettersSlicesFrom1(i, j);
      } else if i <= 3 {
        LettersSlicesFrom2(i, j);
      } else {
        LettersSlicesFrom4(i, j);
      }
    }
    forall k | k in LettersListed
      ensures k in Spans(p, e, 10)
    {
      if |k| <= 1 {
        LettersReached1(k);
      } else if |k| <= 2 {
        LettersReached2(k);
      } else if |k| <= 3 {
        LettersReached3(k);
      } else if |k| <= 4 {
        LettersReached4(k);
      } else if |k| <= 6 {
        LettersReached5(k);
      } else {
        LettersReached7(k);
      }
    }
  }

  const WordsToken: seq<Rune> := "aaa.bbb.ccc.ddd"

  /** The keys smarttoken_test.go:231-255 lists for "aaa.bbb.ccc.ddd". */
  const WordsListed: set<seq<Rune>> := {
    "aaa", "bbb", "ccc", "ddd", ".", "aaa.", "bbb.", "ccc.", ".bbb", ".ccc", ".ddd", "aaa.bbb",
    "bbb.ccc", "ccc.ddd", ".bbb.", ".ccc.", "aaa.bbb.", "bbb.ccc.", ".bbb.ccc", ".ccc.ddd",
    "aaa.bbb.ccc", "bbb.ccc.ddd", ".bbb.ccc."
  }

  /** The boundaries among the first 4 runes of "aaa.bbb.ccc.ddd". */
  lemma WordsScan4()
    ensures LocalBoundaries(Categories, Tables, WordsToken, 4) == [0, 3]
  {
    var p := WordsToken;
    assert RuneClassOf(Categories, '.') == Punct;
    assert RuneClassOf(Categories, 'a') == Letter && TableIndex(Tables, 'a') == 0;
    assert RuneClassOf(Categories, 'b') == Letter && TableIndex(Tables, 'b') == 0;
    assert RuneClassOf(Categories, 'c') == Letter && TableIndex(Tables, 'c') == 0;
    assert RuneClassOf(Categories, 'd') == Letter && TableIndex(Tables, 'd') == 0;
    assert p[0] == 'a' && p[1] == 'a' && p[2] == 'a' && p[3] == '.';
    assert LocalBoundaries(Categories, Tables, p, 1) == [0];
    assert LocalBoundaries(Categories, Tables, p, 2) == [0];
    assert LocalBoundaries(Categories, Tables, p, 3) == [0];
    assert LocalBoundaries(Categories, Tables, p, 4) == [0, 3];
  }

  /** The boundaries among the first 8 runes of "aaa.bbb.ccc.ddd". */
  lemma WordsScan8()
    ensures LocalBoundaries(Categories, Tables, WordsToken, 8) == [0, 3, 4, 7]
  {
    var p := WordsToken;
    assert RuneClassOf(Categories, '.') == Punct;
    assert RuneClassOf(Categories, 'a') == Letter && TableIndex(Tables, 'a') == 0;
    assert RuneClassOf(Categories, 'b') == Letter && TableIndex(Tables, 'b') == 0;
    assert RuneClassOf(Categories, 'c') == Letter && TableIndex(Tables, 'c') == 0;
    assert RuneClassOf(Categories, 'd') == Letter && TableIndex(Tables, 'd') == 0;
    WordsScan4();
    assert p[3] == '.' && p[4] == 'b' && p[5] == 'b' && p[6] == 'b' && p[7] == '.';
    assert LocalBoundaries(Categories, Tables, p, 5) == [0, 3, 4];
    assert LocalBoundaries(Categories, Tables, p, 6) == [0, 3, 4];
    assert LocalBoundaries(Categories, Tables, p, 7) == [0, 3, 4];
    assert LocalBoundaries(Categories, Tables, p, 8) == [0, 3, 4, 7];
  }

  /** The boundaries among the first 12 runes of "aaa.bbb.ccc.ddd". */
  lemma WordsScan12()
    ensures LocalBoundaries(Categories, Tables, WordsToken, 12) == [0, 3, 4, 7, 8, 11]
  {
    var p := WordsToken;
    assert RuneClassOf(Categories, '.') == Punct;
    assert RuneClassOf(Categories, 'a') == Letter && TableIndex(Tables, 'a') == 0;
    assert RuneClassOf(Categories, 'b') == Letter && TableIndex(Tables, 'b') == 0;
    assert RuneClassOf(Categories, 'c') == Letter && TableIndex(Tables, 'c') == 0;
    assert RuneClassOf(Categories, 'd') == Letter && TableIndex(Tables, 'd') == 0;
    WordsScan8();
    assert p[7] == '.' && p[8] == 'c' && p[9] == 'c' && p[10] == 'c' && p[11] == '.';
    assert LocalBoundaries(Categories, Tables, p, 9) == [0, 3, 4, 7, 8];
    assert LocalBoundaries(Categories, Tables, p, 10) == [0, 3, 4, 7, 8];
    assert LocalBoundaries(Categories, Tables, p, 11) == [0, 3, 4, 7, 8];
    assert LocalBoundaries(Categories, Tables, p, 12) == [0, 3, 4, 7, 8, 11];
  }

  /** The edges of "aaa.bbb.ccc.ddd": letter runs and full stops alternate. */
  lemma WordsEdges()
    ensures Edges(Categories, Tables, WordsToken) == [0, 3, 4, 7, 8, 11, 12, 15]
  {
    var p := WordsToken;
    BoundariesByNeighbours(Categories, Tables, p, |p|);
    assert RuneClassOf(Categories, '.') == Punct;
    assert RuneClassOf(Categories, 'a') == Letter && TableIndex(Tables, 'a') == 0;
    assert RuneClassOf(Categories, 'b') == Letter && TableIndex(Tables, 'b') == 0;
    assert RuneClassOf(Categories, 'c') == Letter && TableIndex(Tables, 'c') == 0;
    assert RuneClassOf(Categories, 'd') == Letter && TableIndex(Tables, 'd') == 0;
    WordsScan12();
    assert p[11] == '.' && p[12] == 'd' && p[13] == 'd' && p[14] == 'd';
    assert LocalBoundaries(Categories, Tables, p, 13) == [0, 3, 4, 7, 8, 11, 12];
    assert LocalBoundaries(Categories, Tables, p, 14) == [0, 3, 4, 7, 8, 11, 12];
    assert LocalBoundaries(Categories, Tables, p, 15) == [0, 3, 4, 7, 8, 11, 12];
    assert p[..|p|] == p;
  }

  /** The slices from edge 0 to a later edge at most 5 further are listed. */
  lemma WordsSlicesFrom0(i: int, j: int)
    requires 0 <= i <= 0 && i < j < 8 && j - i <= 5
    ensures WordsToken[[0, 3, 4, 7, 8, 11, 12, 15][i]..[0, 3, 4, 7, 8, 11, 12, 15][j]] in WordsListed
  {
    var p, e := WordsToken, [0, 3, 4, 7, 8, 11, 12, 15];
    assert p[0..3] == "aaa";
    assert p[0..4] == "aaa.";
    assert p[0..7] == "aaa.bbb";
    assert p[0..8] == "aaa.bbb.";
    assert p[0..11] == "aaa.bbb.ccc";
    if i == 0 && j == 1 {
      assert e[i] == 0 && e[j] == 3;
    } else if i == 0 && j == 2 {
      assert e[i] == 0 && e[j] == 4;
    } else if i == 0 && j == 3 {
      assert e[i] == 0 && e[j] == 7;
    } else if i == 0 && j == 4 {
      assert e[i] == 0 && e[j] == 8;
    } else {
      assert i == 0 && j == 5;
      assert e[i] == 0 && e[j] == 11;
    }
  }

  /** The slices from edge 1 to a later edge at most 5 further are listed. */
  lemma WordsSlicesFrom1(i: int, j: int)
    requires i == 1 && i < j < 8 && j - i <= 5
    ensures WordsToken[[0, 3, 4, 7, 8, 11, 12, 15][i]..[0, 3, 4, 7, 8, 11, 12, 15][j]] in WordsListed
  {
    var p, e := WordsToken, [0, 3, 4, 7, 8, 11, 12, 15];
    assert p[3..4] == ".";
    assert p[3..7] == ".bbb";
    assert p[3..8] == ".bbb.";
    assert p[3..11] == ".bbb.ccc";
    assert p[3..12] == ".bbb.ccc.";
    if i == 1 && j == 2 {
      assert e[i] == 3 && e[j] == 4;
    } else if i == 1 && j == 3 {
      assert e[i] == 3 && e[j] == 7;
    } else if i == 1 && j == 4 {
      assert e[i] == 3 && e[j] == 8;
    } else if i == 1 && j == 5 {
      assert e[i] == 3 && e[j] == 11;
    } else {
      assert i == 1 && j == 6;
      assert e[i] == 3 && e[j] == 12;
    }
  }

  /** The slices from edge 2 to 3 to a later edge at most 5 further are listed. */
  lemma WordsSlicesFrom2(i: int, j: int)
    requires 2 <= i <= 3 && i < j < 8 && j - i <= 5
    ensures WordsToken[[0, 3, 4, 7, 8, 11, 12, 15][i]..[0, 3, 4, 7, 8, 11, 12, 15][j]] in WordsListed
  {
    var p, e := WordsToken, [0, 3, 4, 7, 8, 11, 12, 15];
    assert p[4..7] == "bbb";
    assert p[4..8] == "bbb.";
    assert p[4..11] == "bbb.ccc";
    assert p[4..12] == "bbb.ccc.";
    assert p[4..15] == "bbb.ccc.ddd";
    assert p[7..8] == ".";
    assert p[7..11] == ".ccc";
    assert p[7..12] == ".ccc.";
    assert p[7..15] == ".ccc.ddd";
    if i == 2 && j == 3 {
      assert e[i] == 4 && e[j] == 7;
    } else if i == 2 && j == 4 {
      assert e[i] == 4 && e[j] == 8;
    } else if i == 2 && j == 5 {
      assert e[i] == 4 && e[j] == 11;
    } else if i == 2 && j == 6 {
      assert e[i] == 4 && e[j] == 12;
    } else if i == 2 && j == 7 {
      assert e[i] == 4 && e[j] == 15;
    } else if i == 3 && j == 4 {
      assert e[i] == 7 && e[j] == 8;
    } else if i == 3 && j == 5 {
      assert e[i] == 7 && e[j] == 11;
    } else if i == 3 && j == 6 {
      assert e[i] == 7 && e[j] == 12;
    } else {
      assert i == 3 && j == 7;
      assert e[i] == 7 && e[j] == 15;
    }
  }

  /** The slices from edge 4 to 6 to a later edge at most 5 further are listed. */
  lemma WordsSlicesFrom4(i: int, j: int)
    requires 4 <= i && i < j < 8 && j - i <= 5
    ensures WordsToken[[0, 3, 4, 7, 8, 11, 12, 15][i]..[0, 3, 4, 7, 8, 11, 12, 15][j]] in WordsListed
  {
    var p, e := WordsToken, [0, 3, 4, 7, 8, 11, 12, 15];
    assert p[8..11] == "ccc";
    assert p[8..12] == "ccc.";
    assert p[8..15] == "ccc.ddd";
    assert p[11..12] == ".";
    assert p[11..15] == ".ddd";
    assert p[12..15] == "ddd";
    if i == 4 && j == 5 {
      assert e[i] == 8 && e[j] == 11;
    } else if i == 4 && j == 6 {
      assert e[i] == 8 && e[j] == 12;
    } else if i == 4 && j == 7 {
      assert e[i] == 8 && e[j] == 15;
    } else if i == 5 && j == 6 {
      assert e[i] == 11 && e[j] == 12;
    } else if i == 5 && j == 7 {
      assert e[i] == 11 && e[j] == 15;
    } else {
      assert i == 6 && j == 7;
      assert e[i] == 12 && e[j] == 15;
    }
  }

  /** The listed keys of length 1 to 3 are slices between edges at most 5 apart. */
  lemma WordsReached1(k: seq<Rune>)
    requires k in WordsListed && |k| <= 3
    ensures k in Spans(WordsToken, [0, 3, 4, 7, 8, 11, 12, 15], 5)
  {
    var p, e := WordsToken, [0, 3, 4, 7, 8, 11, 12, 15];
    assert p[0..3] == "aaa";
    assert p[4..7] == "bbb";
    assert p[8..11] == "ccc";
    assert p[12..15] == "ddd";
    assert p[3..4] == ".";
    if k == "aaa" {
      assert Fits(p, e, 0, 1) && Piece(p, e, 0, 1) == k;
    } else if k == "bbb" {
      assert Fits(p, e, 2, 3) && Piece(p, e, 2, 3) == k;
    } else if k == "ccc" {
      assert Fits(p, e, 4, 5) && Piece(p, e, 4, 5) == k;
    } else if k == "ddd" {
      assert Fits(p, e, 6, 7) && Piece(p, e, 6, 7) == k;
    } else {
      assert k == ".";
      assert Fits(p, e, 1, 2) && Piece(p, e, 1, 2) == k;
    }
  }

  /** The listed keys of length 4 are slices between edges at most 5 apart. */
  lemma WordsReached4(k: seq<Rune>)
    requires k in WordsListed && |k| == 4
    ensures k in Spans(WordsToken, [0, 3, 4, 7, 8, 11, 12, 15], 5)
  {
    var p, e := WordsToken, [0, 3, 4, 7, 8, 11, 12, 15];
    assert p[0..4] == "aaa.";
    assert p[4..8] == "bbb.";
    assert p[8..12] == "ccc.";
    assert p[3..7] == ".bbb";
    assert p[7..11] == ".ccc";
    assert p[11..15] == ".ddd";
    if k == "aaa." {
      assert Fits(p, e, 0, 2) && Piece(p, e, 0, 2) == k;
    } else if k == "bbb." {
      assert Fits(p, e, 2, 4) && Piece(p, e, 2, 4) == k;
    } else if k == "ccc." {
      assert Fits(p, e, 4, 6) && Piece(p, e, 4, 6) == k;
    } else if k == ".bbb" {
      assert Fits(p, e, 1, 3) && Piece(p, e, 1, 3) == k;
    } else if k == ".ccc" {
      assert Fits(p, e, 3, 5) && Piece(p, e, 3, 5) == k;
    } else {
      assert k == ".ddd";
      assert Fits(p, e, 5, 7) && Piece(p, e, 5, 7) == k;
    }
  }

  /** The listed keys of length 5 to 7 are slices between edges at most 5 apart. */
  lemma WordsReached5(k: seq<Rune>)
    requires k in WordsListed && 5 <= |k| <= 7
    ensures k in Spans(WordsToken, [0, 3, 4, 7, 8, 11, 12, 15], 5)
  {
    var p, e := WordsToken, [0, 3, 4, 7, 8, 11, 12, 15];
    assert p[0..7] == "aaa.bbb";
    assert p[4..11] == "bbb.ccc";
    assert p[8..15] == "ccc.ddd";
    assert p[3..8] == ".bbb.";
    assert p[7..12] == ".ccc.";
    if k == "aaa.bbb" {
      assert Fits(p, e, 0, 3) && Piece(p, e, 0, 3) == k;
    } else if k == "bbb.ccc" {
      assert Fits(p, e, 2, 5) && Piece(p, e, 2, 5) == k;
    } else if k == "ccc.ddd" {
      assert Fits(p, e, 4, 7) && Piece(p, e, 4, 7) == k;
    } else if k == ".bbb." {
      assert Fits(p, e, 1, 4) && Piece(p, e, 1, 4) == k;
    } else {
      assert k == ".ccc.";
      assert Fits(p, e, 3, 6) && Piece(p, e, 3, 6) == k;
    }
  }

  /** The listed keys of length 8 to 9 are slices between edges at most 5 apart. */
  lemma WordsReached8(k: seq<Rune>)
    requires k in WordsListed && 8 <= |k| <= 9
    ensures k in Spans(WordsToken, [0, 3, 4, 7, 8, 11, 12, 15], 5)
  {
    var p, e := WordsToken, [0, 3, 4, 7, 8, 11, 12, 15];
    assert p[0..8] == "aaa.bbb.";
    assert p[4..12] == "bbb.ccc.";
    assert p[3..11] == ".bbb.ccc";
    assert p[7..15] == ".ccc.ddd";
    assert p[3..12] == ".bbb.ccc.";
    if k == "aaa.bbb." {
      assert Fits(p, e, 0, 4) && Piece(p, e, 0, 4) == k;
    } else if k == "bbb.ccc." {
      assert Fits(p, e, 2, 6) && Piece(p, e, 2, 6) == k;
    } else if k == ".bbb.ccc" {
      assert Fits(p, e, 1, 5) && Piece(p, e, 1, 5) == k;
    } else if k == ".ccc.ddd" {
      assert Fits(p, e, 3, 7) && Piece(p, e, 3, 7) == k;
    } else {
      assert k == ".bbb.ccc.";
      assert Fits(p, e, 1, 6) && Piece(p, e, 1, 6) == k;
    }
  }

  /** The listed keys of length 11 are slices between edges at most 5 apart. */
  lemma WordsReached11(k: seq<Rune>)
    requires k in WordsListed && 11 <= |k|
    ensures k in Spans(WordsToken, [0, 3, 4, 7, 8, 11, 12, 15], 5)
  {
    var p, e := WordsToken, [0, 3, 4, 7, 8, 11, 12, 15];
    assert p[0..11] == "aaa.bbb.ccc";
    assert p[4..15] == "bbb.ccc.ddd";
    if k == "aaa.bbb.ccc" {
      assert Fits(p, e, 0, 5) && Piece(p, e, 0, 5) == k;
    } else {
      assert k == "bbb.ccc.ddd";
      assert Fits(p, e, 2, 7) && Piece(p, e, 2, 7) == k;
    }
  }

  /**
   * "aaa.bbb.ccc.ddd" (smarttoken_test.go:229-256): seven segments and depth 5;
   * no key spans six or seven segments, so "aaa.bbb.ccc." and longer are
   * missing, 23 keys in all.
   */
  lemma WordsKeys()
    ensures GetDepth(NewPolicyDepth(10, 10, 18, 2), |WordsToken|) == 5
    ensures SubtokenKeys(Categories, Tables, WordsToken, 5) == WordsListed
  {
    var p, e := WordsToken, [0, 3, 4, 7, 8, 11, 12, 15];
    WordsEdges();
    forall k | k in Spans(p, e, 5)
      ensures k in WordsListed
    {
      var i, j :| 0 <= i < j < |e| && j - i <= 5 && Fits(p, e, i, j) && k == Piece(p, e, i, j);
      if i <= 0 {
        WordsSlicesFrom0(i, j);
      } else if i <= 1 {
        WordsSlicesFrom1(i, j);
      } else if i <= 3 {
        WordsSlicesFrom2(i, j);
      } else {
        WordsSlicesFrom4(i, j);
      }
    }
    forall k | k in WordsListed
      ensures k in Spans(p, e, 5)
    {
      if |k| <= 3 {
        WordsReached1(k);
      } else if |k| <= 4 {
        WordsReached4(k);
      } else if |k| <= 7 {
        WordsReached5(k);
      } else if |k| <= 9 {
        WordsReached8(k);
      } else {
        WordsReached11(k);
      }
    }
  }

  const EllipsesToken: seq<Rune> := "aaa...bbb...ccc...ddd"

  /** The keys smarttoken_test.go:259-271 lists for "aaa...bbb...ccc...ddd". */
  const EllipsesListed: set<seq<Rune>> := {
    "aaa", "bbb", "ccc", "ddd", "...", "aaa...", "bbb...", "ccc...", "...bbb", "...ccc", "...ddd"
  }

  /** The boundaries among the first 4 runes of "aaa...bbb...ccc...ddd". */
  lemma EllipsesScan4()
    ensures LocalBoundaries(Categories, Tables, EllipsesToken, 4) == [0, 3]
  {
    var p := EllipsesToken;
    assert RuneClassOf(Categories, '.') == Punct;
    assert RuneClassOf(Categories, 'a') == Letter && TableIndex(Tables, 'a') == 0;
    assert RuneClassOf(Categories, 'b') == Letter && TableIndex(Tables, 'b') == 0;
    assert RuneClassOf(Categories, 'c') == Letter && TableIndex(Tables, 'c') == 0;
    assert RuneClassOf(Categories, 'd') == Letter && TableIndex(Tables, 'd') == 0;
    assert p[0] == 'a' && p[1] == 'a' && p[2] == 'a' && p[3] == '.';
    assert LocalBoundaries(Categories, Tables, p, 1) == [0];
    assert LocalBoundaries(Categories, Tables, p, 2) == [0];
    assert LocalBoundaries(Categories, Tables, p, 3) == [0];
    assert LocalBoundaries(Categories, Tables, p, 4) == [0, 3];
  }

  /** The boundaries among the first 8 runes of "aaa...bbb...ccc...ddd". */
  lemma EllipsesScan8()
    ensures LocalBoundaries(Categories, Tables, EllipsesToken, 8) == [0, 3, 6]
  {
    var p := EllipsesToken;
    assert RuneClassOf(Categories, '.') == Punct;
    assert RuneClassOf(Categories, 'a') == Letter && TableIndex(Tables, 'a') == 0;
    assert RuneClassOf(Categories, 'b') == Letter && TableIndex(Tables, 'b') == 0;
    assert RuneClassOf(Categories, 'c') == Letter && TableIndex(Tables, 'c') == 0;
    assert RuneClassOf(Categories, 'd') == Letter && TableIndex(Tables, 'd') == 0;
    EllipsesScan4();
    assert p[3] == '.' && p[4] == '.' && p[5] == '.' && p[6] == 'b' && p[7] == 'b';
    assert LocalBoundaries(Categories, Tables, p, 5) == [0, 3];
    assert LocalBoundaries(Categories, Tables, p, 6) == [0, 3];
    assert LocalBoundaries(Categories, Tables, p, 7) == [0, 3, 6];
    assert LocalBoundaries(Categories, Tables, p, 8) == [0, 3, 6];
  }

  /** The boundaries among the first 12 runes of "aaa...bbb...ccc...ddd". */
  lemma EllipsesScan12()
    ensures LocalBoundaries(Categories, Tables, EllipsesToken, 12) == [0, 3, 6, 9]
  {
    var p := EllipsesToken;
    assert RuneClassOf(Categories, '.') == Punct;
    assert RuneClassOf(Categories, 'a') == Letter && TableIndex(Tables, 'a') == 0;
    assert RuneClassOf(Categories, 'b') == Letter && TableIndex(Tables, 'b') == 0;
    assert RuneClassOf(Categories, 'c') == Letter && TableIndex(Tables, 'c') == 0;
    assert RuneClassOf(Categories, 'd') == Letter && TableIndex(Tables, 'd') == 0;
    EllipsesScan8();
    assert p[7] == 'b' && p[8] == 'b' && p[9] == '.' && p[10] == '.' && p[11] == '.';
    assert LocalBoundaries(Categories, Tables, p, 9) == [0, 3, 6];
    assert LocalBoundaries(Categories, Tables, p, 10) == [0, 3, 6, 9];
    assert LocalBoundaries(Categories, Tables, p, 11) == [0, 3, 6, 9];
    assert LocalBoundaries(Categories, Tables, p, 12) == [0, 3, 6, 9];
  }

  /** The boundaries among the first 16 runes of "aaa...bbb...ccc...ddd". */
  lemma EllipsesScan16()
    ensures LocalBoundaries(Categories, Tables, EllipsesToken, 16) == [0, 3, 6, 9, 12, 15]
  {
    var p := EllipsesToken;
    assert RuneClassOf(Categories, '.') == Punct;
    assert RuneClassOf(Categories, 'a') == Letter && TableIndex(Tables, 'a') == 0;
    assert RuneClassOf(Categories, 'b') == Letter && TableIndex(Tables, 'b') == 0;
    assert RuneClassOf(Categories, 'c') == Letter && TableIndex(Tables, 'c') == 0;
    assert RuneClassOf(Categories, 'd') == Letter && TableIndex(Tables, 'd') == 0;
    EllipsesScan12();
    assert p[11] == '.' && p[12] == 'c' && p[13] == 'c' && p[14] == 'c' && p[15] == '.';
    assert LocalBoundaries(Categories, Tables, p, 13) == [0, 3, 6, 9, 12];
    assert LocalBoundaries(Categories, Tables, p, 14) == [0, 3, 6, 9, 12];
    assert LocalBoundaries(Categories, Tables, p, 15) == [0, 3, 6, 9, 12];
    assert LocalBoundaries(Categories, Tables, p, 16) == [0, 3, 6, 9, 12, 15];
  }

  /** The boundaries among the first 20 runes of "aaa...bbb...ccc...ddd". */
  lemma EllipsesScan20()
    ensures LocalBoundaries(Categories, Tables, EllipsesToken, 20) == [0, 3, 6, 9, 12, 15, 18]
  {
    var p := EllipsesToken;
    assert RuneClassOf(Categories, '.') == Punct;
    assert RuneClassOf(Categories, 'a') == Letter && TableIndex(Tables, 'a') == 0;
    assert RuneClassOf(Categories, 'b') == Letter && TableIndex(Tables, 'b') == 0;
    assert RuneClassOf(Categories, 'c') == Letter && TableIndex(Tables, 'c') == 0;
    assert RuneClassOf(Categories, 'd') == Letter && TableIndex(Tables, 'd') == 0;
    EllipsesScan16();
    assert p[15] == '.' && p[16] == '.' && p[17] == '.' && p[18] == 'd' && p[19] == 'd';
    assert LocalBoundaries(Categories, Tables, p, 17) == [0, 3, 6, 9, 12, 15];
    assert LocalBoundaries(Categories, Tables, p, 18) == [0, 3, 6, 9, 12, 15];
    assert LocalBoundaries(Categories, Tables, p, 19) == [0, 3, 6, 9, 12, 15, 18];
    assert LocalBoundaries(Categories, Tables, p, 20) == [0, 3, 6, 9, 12, 15, 18];
  }

  /** The edges of "aaa...bbb...ccc...ddd": a run of three full stops is one segment. */
  lemma EllipsesEdges()
    ensures Edges(Categories, Tables, EllipsesToken) == [0, 3, 6, 9, 12, 15, 18, 21]
  {
    var p := EllipsesToken;
    BoundariesByNeighbours(Categories, Tables, p, |p|);
    assert RuneClassOf(Categories, '.') == Punct;
    assert RuneClassOf(Categories, 'a') == Letter && TableIndex(Tables, 'a') == 0;
    assert RuneClassOf(Categories, 'b') == Letter && TableIndex(Tables, 'b') == 0;
    assert RuneClassOf(Categories, 'c') == Letter && TableIndex(Tables, 'c') == 0;
    assert RuneClassOf(Categories, 'd') == Letter && TableIndex(Tables, 'd') == 0;
    EllipsesScan20();
    assert p[19] == 'd' && p[20] == 'd';
    assert LocalBoundaries(Categories, Tables, p, 21) == [0, 3, 6, 9, 12, 15, 18];
    assert p[..|p|] == p;
  }

  /** The slices from edge 0 to 3 to a later edge at most 2 further are listed. */
  lemma EllipsesSlicesFrom0(i: int, j: int)
    requires 0 <= i <= 3 && i < j < 8 && j - i <= 2
    ensures EllipsesToken[[0, 3, 6, 9, 12, 15, 18, 21][i]..[0, 3, 6, 9, 12, 15, 18, 21][j]] in EllipsesListed
  {
    var p, e := EllipsesToken, [0, 3, 6, 9, 12, 15, 18, 21];
    assert p[0..3] == "aaa";
    assert p[0..6] == "aaa...";
    assert p[3..6] == "...";
    assert p[3..9] == "...bbb";
    assert p[6..9] == "bbb";
    assert p[6..12] == "bbb...";
    assert p[9..12] == "...";
    assert p[9..15] == "...ccc";
    if i == 0 && j == 1 {
      assert e[i] == 0 && e[j] == 3;
    } else if i == 0 && j == 2 {
      assert e[i] == 0 && e[j] == 6;
    } else if i == 1 && j == 2 {
      assert e[i] == 3 && e[j] == 6;
    } else if i == 1 && j == 3 {
      assert e[i] == 3 && e[j] == 9;
    } else if i == 2 && j == 3 {
      assert e[i] == 6 && e[j] == 9;
    } else if i == 2 && j == 4 {
      assert e[i] == 6 && e[j] == 12;
    } else if i == 3 && j == 4 {
      assert e[i] == 9 && e[j] == 12;
    } else {
      assert i == 3 && j == 5;
      assert e[i] == 9 && e[j] == 15;
    }
  }

  /** The slices from edge 4 to 6 to a later edge at most 2 further are listed. */
  lemma EllipsesSlicesFrom4(i: int, j: int)
    requires 4 <= i && i < j < 8 && j - i <= 2
    ensures EllipsesToken[[0, 3, 6, 9, 12, 15, 18, 21][i]..[0, 3, 6, 9, 12, 15, 18, 21][j]] in EllipsesListed
  {
    var p, e := EllipsesToken, [0, 3, 6, 9, 12, 15, 18, 21];
    assert p[12..15] == "ccc";
    assert p[12..18] == "ccc...";
    assert p[15..18] == "...";
    assert p[15..21] == "...ddd";
    assert p[18..21] == "ddd";
    if i == 4 && j == 5 {
      assert e[i] == 12 && e[j] == 15;
    } else if i == 4 && j == 6 {
      assert e[i] == 12 && e[j] == 18;
    } else if i == 5 && j == 6 {
      assert e[i] == 15 && e[j] == 18;
    } else if i == 5 && j == 7 {
      assert e[i] == 15 && e[j] == 21;
    } else {
      assert i == 6 && j == 7;
      assert e[i] == 18 && e[j] == 21;
    }
  }

  /** The listed keys of length 3 are slices between edges at most 2 apart. */
  lemma EllipsesReached3(k: seq<Rune>)
    requires k in EllipsesListed && |k| <= 3
    ensures k in Spans(EllipsesToken, [0, 3, 6, 9, 12, 15, 18, 21], 2)
  {
    var p, e := EllipsesToken, [0, 3, 6, 9, 12, 15, 18, 21];
    assert p[0..3] == "aaa";
    assert p[6..9] == "bbb";
    assert p[12..15] == "ccc";
    assert p[18..21] == "ddd";
    assert p[3..6] == "...";
    if k == "aaa" {
      assert Fits(p, e, 0, 1) && Piece(p, e, 0, 1) == k;
    } else if k == "bbb" {
      assert Fits(p, e, 2, 3) && Piece(p, e, 2, 3) == k;
    } else if k == "ccc" {
      assert Fits(p, e, 4, 5) && Piece(p, e, 4, 5) == k;
    } else if k == "ddd" {
      assert Fits(p, e, 6, 7) && Piece(p, e, 6, 7) == k;
    } else {
      assert k == "...";
      assert Fits(p, e, 1, 2) && Piece(p, e, 1, 2) == k;
    }
  }

  /** The listed keys of length 6 are slices between edges at most 2 apart. */
  lemma EllipsesReached6(k: seq<Rune>)
    requires k in EllipsesListed && 6 <= |k|
    ensures k in Spans(EllipsesToken, [0, 3, 6, 9, 12, 15, 18, 21], 2)
  {
    var p, e := EllipsesToken, [0, 3, 6, 9, 12, 15, 18, 21];
    assert p[0..6] == "aaa...";
    assert p[6..12] == "bbb...";
    assert p[12..18] == "ccc...";
    assert p[3..9] == "...bbb";
    assert p[9..15] == "...ccc";
    assert p[15..21] == "...ddd";
    if k == "aaa..." {
      assert Fits(p, e, 0, 2) && Piece(p, e, 0, 2) == k;
    } else if k == "bbb..." {
      assert Fits(p, e, 2, 4) && Piece(p, e, 2, 4) == k;
    } else if k == "ccc..." {
      assert Fits(p, e, 4, 6) && Piece(p, e, 4, 6) == k;
    } else if k == "...bbb" {
      assert Fits(p, e, 1, 3) && Piece(p, e, 1, 3) == k;
    } else if k == "...ccc" {
      assert Fits(p, e, 3, 5) && Piece(p, e, 3, 5) == k;
    } else {
      assert k == "...ddd";
      assert Fits(p, e, 5, 7) && Piece(p, e, 5, 7) == k;
    }
  }

  /**
   * "aaa...bbb...ccc...ddd" (smarttoken_test.go:257-272): depth 2 gives the
   * segments and the pairs of neighbouring segments only, 11 keys.
   */
  lemma EllipsesKeys()
    ensures GetDepth(NewPolicyDepth(10, 10, 18, 2), |EllipsesToken|) == 2
    ensures SubtokenKeys(Categories, Tables, EllipsesToken, 2) == EllipsesListed
  {
    var p, e := EllipsesToken, [0, 3, 6, 9, 12, 15, 18, 21];
    EllipsesEdges();
    forall k | k in Spans(p, e, 2)
      ensures k in EllipsesListed
    {
      var i, j :| 0 <= i < j < |e| && j - i <= 2 && Fits(p, e, i, j) && k == Piece(p, e, i, j);
      if i <= 3 {
        EllipsesSlicesFrom0(i, j);
      } else {
        EllipsesSlicesFrom4(i, j);
      }
    }
    forall k | k in EllipsesListed
      ensures k in Spans(p, e, 2)
    {
      if |k| <= 3 {
        EllipsesReached3(k);
      } else {
        EllipsesReached6(k);
      }
    }
  }

  const ScriptsToken: seq<Rune> := "aаaа"

  /** The keys smarttoken_test.go:92-100 lists for "aаaа". */
  const ScriptsListed: set<seq<Rune>> := {
    "a", "а", "aа", "аa", "aаa", "аaа", "aаaа"
  }

  /** The edges of "aаaа": Latin and Cyrillic letters come from different tables. */
  lemma ScriptsEdges()
    ensures Edges(Categories, Tables, ScriptsToken) == [0, 1, 2, 3, 4]
  {
    var p := ScriptsToken;
    BoundariesByNeighbours(Categories, Tables, p, |p|);
    assert RuneClassOf(Categories, 'a') == Letter && TableIndex(Tables, 'a') == 0;
    assert RuneClassOf(Categories, 'а') == Letter && TableIndex(Tables, 'а') == 1;
    assert p[0] == 'a' && p[1] == 'а' && p[2] == 'a' && p[3] == 'а';
    assert LocalBoundaries(Categories, Tables, p, 1) == [0];
    assert LocalBoundaries(Categories, Tables, p, 2) == [0, 1];
    assert LocalBoundaries(Categories, Tables, p, 3) == [0, 1, 2];
    assert LocalBoundaries(Categories, Tables, p, 4) == [0, 1, 2, 3];
    assert p[..|p|] == p;
  }

  /** The slices from edge 0 to 2 to a later edge at most 10 further are listed. */
  lemma ScriptsSlicesFrom0(i: int, j: int)
    requires 0 <= i <= 2 && i < j < 5 && j - i <= 10
    ensures ScriptsToken[[0, 1, 2, 3, 4][i]..[0, 1, 2, 3, 4][j]] in ScriptsListed
  {
    var p, e := ScriptsToken, [0, 1, 2, 3, 4];
    assert p[0..1] == "a";
    assert p[0..2] == "aа";
    assert p[0..3] == "aаa";
    assert p[0..4] == "aаaа";
    assert p[1..2] == "а";
    assert p[1..3] == "аa";
    assert p[1..4] == "аaа";
    assert p[2..3] == "a";
    assert p[2..4] == "aа";
    if i == 0 && j == 1 {
      assert e[i] == 0 && e[j] == 1;
    } else if i == 0 && j == 2 {
      assert e[i] == 0 && e[j] == 2;
    } else if i == 0 && j == 3 {
      assert e[i] == 0 && e[j] == 3;
    } else if i == 0 && j == 4 {
      assert e[i] == 0 && e[j] == 4;
    } else if i == 1 && j == 2 {
      assert e[i] == 1 && e[j] == 2;
    } else if i == 1 && j == 3 {
      assert e[i] == 1 && e[j] == 3;
    } else if i == 1 && j == 4 {
      assert e[i] == 1 && e[j] == 4;
    } else if i == 2 && j == 3 {
      assert e[i] == 2 && e[j] == 3;
    } else {
      assert i == 2 && j == 4;
      assert e[i] == 2 && e[j] == 4;
    }
  }

  /** The slices from edge 3 to a later edge at most 10 further are listed. */
  lemma ScriptsSlicesFrom3(i: int, j: int)
    requires 3 <= i && i < j < 5 && j - i <= 10
    ensures ScriptsToken[[0, 1, 2, 3, 4][i]..[0, 1, 2, 3, 4][j]] in ScriptsListed
  {
    var p, e := ScriptsToken, [0, 1, 2, 3, 4];
    assert p[3..4] == "а";
    assert i == 3 && j == 4;
    assert e[i] == 3 && e[j] == 4;
  }

  /** The listed keys of length 1 to 2 are slices between edges at most 10 apart. */
  lemma ScriptsReached1(k: seq<Rune>)
    requires k in ScriptsListed && |k| <= 2
    ensures k in Spans(ScriptsToken, [0, 1, 2, 3, 4], 10)
  {
    var p, e := ScriptsToken, [0, 1, 2, 3, 4];
    assert p[0..1] == "a";
    assert p[1..2] == "а";
    assert p[0..2] == "aа";
    assert p[1..3] == "аa";
    if k == "a" {
      assert Fits(p, e, 0, 1) && Piece(p, e, 0, 1) == k;
    } else if k == "а" {
      assert Fits(p, e, 1, 2) && Piece(p, e, 1, 2) == k;
    } else if k == "aа" {
      assert Fits(p, e, 0, 2) && Piece(p, e, 0, 2) == k;
    } else {
      assert k == "аa";
      assert Fits(p, e, 1, 3) && Piece(p, e, 1, 3) == k;
    }
  }

  /** The listed keys of length 3 to 4 are slices between edges at most 10 apart. */
  lemma ScriptsReached3(k: seq<Rune>)
    requires k in ScriptsListed && 3 <= |k|
    ensures k in Spans(ScriptsToken, [0, 1, 2, 3, 4], 10)
  {
    var p, e := ScriptsToken, [0, 1, 2, 3, 4];
    assert p[0..3] == "aаa";
    assert p[1..4] == "аaа";
    assert p[0..4] == "aаaа";
    if k == "aаa" {
      assert Fits(p, e, 0, 3) && Piece(p, e, 0, 3) == k;
    } else if k == "аaа" {
      assert Fits(p, e, 1, 4) && Piece(p, e, 1, 4) == k;
    } else {
      assert k == "aаaа";
      assert Fits(p, e, 0, 4) && Piece(p, e, 0, 4) == k;
    }
  }

  /**
   * "aаaа" (smarttoken_test.go:90-101), whose second and fourth runes are
   * Cyrillic: a letter from another range table starts a new segment, so
   * every rune is a segment, seven distinct keys.
   */
  lemma ScriptsKeys()
    ensures GetDepth(NewPolicyDepth(10, 10, 18, 2), |ScriptsToken|) == 10
    ensures SubtokenKeys(Categories, Tables, ScriptsToken, 10) == ScriptsListed
  {
    var p, e := ScriptsToken, [0, 1, 2, 3, 4];
    ScriptsEdges();
    forall k | k in Spans(p, e, 10)
      ensures k in ScriptsListed
    {
      var i, j :| 0 <= i < j < |e| && j - i <= 10 && Fits(p, e, i, j) && k == Piece(p, e, i, j);
      if i <= 2 {
        ScriptsSlicesFrom0(i, j);
      } else {
        ScriptsSlicesFrom3(i, j);
      }
    }
    forall k | k in ScriptsListed
      ensures k in Spans(p, e, 10)
    {
      if |k| <= 2 {
        ScriptsReached1(k);
      } else {
        ScriptsReached3(k);
      }
    }
  }

  const SymbolFirstToken: seq<Rune> := "☭hello"

  /** The keys the code yields for "☭hello". */
  const SymbolFirstListed: set<seq<Rune>> := {
    "hello"
  }

  /** The boundaries among the first 4 runes of "☭hello". */
  lemma SymbolFirstScan4()
    ensures LocalBoundaries(Categories, Tables, SymbolFirstToken, 4) == [1]
  {
    var p := SymbolFirstToken;
    assert RuneClassOf(Categories, 'e') == Letter && TableIndex(Tables, 'e') == 0;
    assert RuneClassOf(Categories, 'h') == Letter && TableIndex(Tables, 'h') == 0;
    assert RuneClassOf(Categories, 'l') == Letter && TableIndex(Tables, 'l') == 0;
    assert RuneClassOf(Categories, 'o') == Letter && TableIndex(Tables, 'o') == 0;
    assert RuneClassOf(Categories, '☭') == Undef;
    assert p[0] == '☭' && p[1] == 'h' && p[2] == 'e' && p[3] == 'l';
    assert LocalBoundaries(Categories, Tables, p, 1) == [];
    assert LocalBoundaries(Categories, Tables, p, 2) == [1];
    assert LocalBoundaries(Categories, Tables, p, 3) == [1];
    assert LocalBoundaries(Categories, Tables, p, 4) == [1];
  }

  /** The edges of "☭hello": no boundary at the symbol, one at "h". */
  lemma SymbolFirstEdges()
    ensures Edges(Categories, Tables, SymbolFirstToken) == [1, 6]
  {
    var p := SymbolFirstToken;
    BoundariesByNeighbours(Categories, Tables, p, |p|);
    assert RuneClassOf(Categories, 'e') == Letter && TableIndex(Tables, 'e') == 0;
    assert RuneClassOf(Categories, 'h') == Letter && TableIndex(Tables, 'h') == 0;
    assert RuneClassOf(Categories, 'l') == Letter && TableIndex(Tables, 'l') == 0;
    assert RuneClassOf(Categories, 'o') == Letter && TableIndex(Tables, 'o') == 0;
    assert RuneClassOf(Categories, '☭') == Undef;
    SymbolFirstScan4();
    assert p[3] == 'l' && p[4] == 'l' && p[5] == 'o';
    assert LocalBoundaries(Categories, Tables, p, 5) == [1];
    assert LocalBoundaries(Categories, Tables, p, 6) == [1];
    assert p[..|p|] == p;
  }

  /** The slices from edge 0 to a later edge at most 10 further are listed. */
  lemma SymbolFirstSlicesFrom0(i: int, j: int)
    requires 0 <= i && i < j < 2 && j - i <= 10
    ensures SymbolFirstToken[[1, 6][i]..[1, 6][j]] in SymbolFirstListed
  {
    var p, e := SymbolFirstToken, [1, 6];
    assert p[1..6] == "hello";
    assert i == 0 && j == 1;
    assert e[i] == 1 && e[j] == 6;
  }

  /** The listed keys of length 5 are slices between edges at most 10 apart. */
  lemma SymbolFirstReached5(k: seq<Rune>)
    requires k in SymbolFirstListed
    ensures k in Spans(SymbolFirstToken, [1, 6], 10)
  {
    var p, e := SymbolFirstToken, [1, 6];
    assert p[1..6] == "hello";
    assert k == "hello";
    assert Fits(p, e, 0, 1) && Piece(p, e, 0, 1) == k;
  }

  /**
   * "☭hello" (smarttoken_test.go:174-181): the symbol is in no category, so
   * after flush it reports no boundary and is never a left edge; the only key
   * is "hello", not the three keys that test lists.
   */
  lemma SymbolFirstKeys()
    ensures GetDepth(NewPolicyDepth(10, 10, 18, 2), |SymbolFirstToken|) == 10
    ensures SubtokenKeys(Categories, Tables, SymbolFirstToken, 10) == SymbolFirstListed
  {
    var p, e := SymbolFirstToken, [1, 6];
    SymbolFirstEdges();
    forall k | k in Spans(p, e, 10)
      ensures k in SymbolFirstListed
    {
      var i, j :| 0 <= i < j < |e| && j - i <= 10 && Fits(p, e, i, j) && k == Piece(p, e, i, j);
      SymbolFirstSlicesFrom0(i, j);
    }
    forall k | k in SymbolFirstListed
      ensures k in Spans(p, e, 10)
    {
      SymbolFirstReached5(k);
    }
  }

}
