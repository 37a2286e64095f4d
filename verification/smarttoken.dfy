/**
 * The subtoken extractor of gotoken (smarttoken.go). A token is scanned rune
 * by rune; a boundary is reported wherever the rune class (letter, digit,
 * punctuation) or, for letters, the index of the first registered range table
 * holding the rune changes. Boundary offsets go through a circular buffer of
 * capacity depth + 1, and every slice between two buffered offsets becomes a
 * subtoken. The result is every slice between two edges (boundaries, or the
 * end of the token) at most `depth` edges apart.
 *
 * Offsets are rune indices into the token (the source slices bytes; see README).
 */
module SmartTokens {
  import opened CircularBuffers

  /** A Unicode code point as produced by ranging over a Go string. */
  type Rune = char

  /** The code points a *unicode.RangeTable covers; unicode.In(r, table) is `r in table`. */
  type RangeTable = set<Rune>

  /**
   * The categories behind unicode.IsLetter, unicode.IsDigit and unicode.IsPunct
   * (the code points of unicode.L, unicode.Nd and unicode.P).
   */
  datatype Unicode = Unicode(letters: set<Rune>, digits: set<Rune>, puncts: set<Rune>)

  /** runeClassUndef (-1), runeClassLetter (0), runeClassDigit (1), runeClassPunct (2). */
  datatype RuneClass = Undef | Letter | Digit | Punct

  /** getRuneClass: letter before digit before punctuation; anything else is Undef. */
  function RuneClassOf(u: Unicode, r: Rune): (c: RuneClass)
    ensures c == Letter <==> r in u.letters
    ensures c == Digit <==> r !in u.letters && r in u.digits
    ensures c == Punct <==> r !in u.letters && r !in u.digits && r in u.puncts
    ensures c == Undef <==> r !in u.letters && r !in u.digits && r !in u.puncts
  {
    if r in u.letters then Letter
    else if r in u.digits then Digit
    else if r in u.puncts then Punct
    else Undef
  }

  /** The index of the first table holding `r`, or -1 when none does. */
  function TableIndex(tables: seq<RangeTable>, r: Rune): int
  {
    if tables == [] then -1
    else if r in tables[0] then 0
    else
      var i := TableIndex(tables[1..], r);
      if i == -1 then -1 else i + 1
  }

  /**
   * TableIndex is the smallest index of a table holding `r`, and -1 exactly
   * when no table holds it; tables keep the order they were registered in.
   */
  lemma {:induction false} TableIndexFirstMatch(tables: seq<RangeTable>, r: Rune)
    ensures -1 <= TableIndex(tables, r) < |tables|
    ensures 0 <= TableIndex(tables, r) ==> r in tables[TableIndex(tables, r)]
    ensures forall j :: 0 <= j < |tables| && j < TableIndex(tables, r) ==> r !in tables[j]
    ensures TableIndex(tables, r) == -1 <==> forall j :: 0 <= j < |tables| ==> r !in tables[j]
  {
    if tables != [] && r !in tables[0] {
      TableIndexFirstMatch(tables[1..], r);
      assert forall j :: 0 < j < |tables| ==> tables[j] == tables[1..][j - 1];
    }
  }

  /** The pair of fields (runeClass, rangeTableIndex) that the scan updates. */
  datatype ScanState = ScanState(runeClass: RuneClass, rangeTableIndex: int)

  /** The state flush() resets to at the start of every token. */
  const Flushed: ScanState := ScanState(Undef, -1)

  /** The state after pushRune(r): the class is r's, the table index moves only on letters. */
  function NextState(u: Unicode, tables: seq<RangeTable>, s: ScanState, r: Rune): ScanState
  {
    var c := RuneClassOf(u, r);
    ScanState(c, if c == Letter then TableIndex(tables, r) else s.rangeTableIndex)
  }

  /** What pushRune(r) returns in state `s`. */
  predicate IsBoundary(u: Unicode, tables: seq<RangeTable>, s: ScanState, r: Rune)
  {
    var c := RuneClassOf(u, r);
    c != s.runeClass || (c == Letter && TableIndex(tables, r) != s.rangeTableIndex)
  }

  /** The state after flush() followed by pushRune of every rune of `p`. */
  function StateAfter(u: Unicode, tables: seq<RangeTable>, p: seq<Rune>): ScanState
  {
    if p == [] then Flushed
    else NextState(u, tables, StateAfter(u, tables, p[..|p| - 1]), p[|p| - 1])
  }

  /** Offsets in `p` at which pushRune reports a boundary, in increasing order. */
  function Boundaries(u: Unicode, tables: seq<RangeTable>, p: seq<Rune>): seq<int>
  {
    if p == [] then []
    else
      var q := p[..|p| - 1];
      Boundaries(u, tables, q) + (if IsBoundary(u, tables, StateAfter(u, tables, q), p[|p| - 1]) then [|p| - 1] else [])
  }

  /** The offset at i exceeds the one before it. */
  predicate StepUp(e: seq<int>, i: int)
    requires 0 < i < |e|
  {
    e[i - 1] < e[i]
  }

  /** Strictly increasing offsets into `p`, each at most |p|. */
  ghost predicate Offsets(p: seq<Rune>, e: seq<int>)
  {
    && (forall i :: 0 <= i < |e| ==> 0 <= e[i] <= |p|)
    && (forall i :: 0 < i < |e| ==> StepUp(e, i))
  }

  lemma {:induction false} OffsetsBetween(p: seq<Rune>, e: seq<int>, i: int, j: int)
    requires Offsets(p, e) && 0 <= i < j < |e|
    ensures e[i] < e[j]
    decreases j - i
  {
    assert StepUp(e, j);
    if i + 1 < j {
      OffsetsBetween(p, e, i, j - 1);
    }
  }

  /** An offset beyond the last one, within `p`, keeps the offsets increasing. */
  lemma OffsetsAppend(p: seq<Rune>, e: seq<int>, x: int)
    requires Offsets(p, e) && x <= |p| && (if e == [] then 0 <= x else e[|e| - 1] < x)
    ensures Offsets(p, e + [x])
  {
    var e' := e + [x];
    forall i | 0 < i < |e'|
      ensures StepUp(e', i)
    {
      if i < |e| {
        assert StepUp(e, i);
      }
    }
  }

  /** Every slice from offset i to a later offset lies within `p`. */
  lemma OffsetsFrom(p: seq<Rune>, e: seq<int>, i: int)
    requires Offsets(p, e) && 0 <= i < |e|
    ensures forall j :: i < j < |e| ==> Fits(p, e, i, j)
  {
    forall j | i < j < |e|
      ensures Fits(p, e, i, j)
    {
      OffsetsBetween(p, e, i, j);
    }
  }

  /**
   * Boundaries are reported in increasing order, each at the offset of the
   * rune just pushed, so each is the offset of a rune of `p`.
   */
  lemma {:induction false} BoundariesIncrease(u: Unicode, tables: seq<RangeTable>, p: seq<Rune>)
    ensures Offsets(p, Boundaries(u, tables, p))
    ensures forall i :: 0 <= i < |Boundaries(u, tables, p)| ==> Boundaries(u, tables, p)[i] < |p|
  {
    if p != [] {
      var q := p[..|p| - 1];
      var b := Boundaries(u, tables, q);
      BoundariesIncrease(u, tables, q);
      assert Offsets(p, b);
      if IsBoundary(u, tables, StateAfter(u, tables, q), p[|p| - 1]) {
        assert b != [] ==> b[|b| - 1] < |q|;
        OffsetsAppend(p, b, |p| - 1);
      } else {
        assert Boundaries(u, tables, p) == b;
      }
    }
  }

  /** Every offset pushed into the buffer: the boundaries, then len(token). */
  function Edges(u: Unicode, tables: seq<RangeTable>, p: seq<Rune>): (e: seq<int>)
    ensures Offsets(p, e) && |e| >= 1 && e[|e| - 1] == |p|
  {
    BoundariesIncrease(u, tables, p);
    var b := Boundaries(u, tables, p);
    assert b != [] ==> b[|b| - 1] < |p|;
    OffsetsAppend(p, b, |p|);
    Boundaries(u, tables, p) + [|p|]
  }

  /** Edges i < j of `e` that delimit a slice of `p`. */
  predicate Fits(p: seq<Rune>, e: seq<int>, i: int, j: int)
  {
    0 <= i < j < |e| && 0 <= e[i] <= e[j] <= |p|
  }

  /** The slice of `p` from edge i to edge j. */
  function Piece(p: seq<Rune>, e: seq<int>, i: int, j: int): seq<Rune>
    requires Fits(p, e, i, j)
  {
    p[e[i]..e[j]]
  }

  /**
   * The slices of `p` between two edges at most `depth` edges apart. The
   * range test always holds for the edges of a token (see Edges); it keeps
   * the definition meaningful for any sequence of offsets.
   */
  ghost function Spans(p: seq<Rune>, e: seq<int>, depth: int): set<seq<Rune>>
  {
    set i, j | 0 <= i < j < |e| && j - i <= depth && Fits(p, e, i, j) :: Piece(p, e, i, j)
  }

  /** The keys of GetSubtokensWithDepth(token, depth). */
  ghost function SubtokenKeys(u: Unicode, tables: seq<RangeTable>, token: seq<Rune>, depth: int): set<seq<Rune>>
  {
    Spans(token, Edges(u, tables, token), depth)
  }

  /** Boundary at k, judged from the runes at k and k - 1 only. */
  predicate LocalBoundary(u: Unicode, tables: seq<RangeTable>, p: seq<Rune>, k: int)
    requires 0 <= k < |p|
  {
    var c := RuneClassOf(u, p[k]);
    if k == 0 then c != Undef
    else c != RuneClassOf(u, p[k - 1]) || (c == Letter && TableIndex(tables, p[k]) != TableIndex(tables, p[k - 1]))
  }

  lemma StateAfterLast(u: Unicode, tables: seq<RangeTable>, p: seq<Rune>)
    requires p != []
    ensures StateAfter(u, tables, p).runeClass == RuneClassOf(u, p[|p| - 1])
    ensures RuneClassOf(u, p[|p| - 1]) == Letter ==>
      StateAfter(u, tables, p).rangeTableIndex == TableIndex(tables, p[|p| - 1])
  {
  }

  /**
   * pushRune reports a boundary at k exactly when the rune at k has another
   * class than the rune before it, or both are letters from different tables;
   * at offset 0, exactly when the first rune is a letter, digit or punctuation.
   */
  lemma {:induction false} BoundariesAreLocal(u: Unicode, tables: seq<RangeTable>, p: seq<Rune>, k: int)
    requires 0 <= k < |p|
    ensures k in Boundaries(u, tables, p) <==> LocalBoundary(u, tables, p, k)
    decreases |p|
  {
    var q := p[..|p| - 1];
    var b := Boundaries(u, tables, q);
    assert Boundaries(u, tables, p) == b + (if IsBoundary(u, tables, StateAfter(u, tables, q), p[|p| - 1]) then [|p| - 1] else []);
    BoundariesIncrease(u, tables, q);
    if k < |p| - 1 {
      BoundariesAreLocal(u, tables, q, k);
      assert q[k] == p[k];
      assert k > 0 ==> q[k - 1] == p[k - 1];
    } else {
      assert k !in b;
      if q != [] {
        StateAfterLast(u, tables, q);
        assert q[|q| - 1] == p[k - 1];
      }
    }
  }

  /** The offsets k < n at which LocalBoundary holds, in increasing order. */
  function LocalBoundaries(u: Unicode, tables: seq<RangeTable>, p: seq<Rune>, n: int): seq<int>
    requires 0 <= n <= |p|
  {
    if n == 0 then []
    else LocalBoundaries(u, tables, p, n - 1) + (if LocalBoundary(u, tables, p, n - 1) then [n - 1] else [])
  }

  /**
   * The boundaries of every prefix of `p` are found by looking at two
   * neighbouring runes at a time: the scan state needs no longer memory.
   */
  lemma {:induction false} BoundariesByNeighbours(u: Unicode, tables: seq<RangeTable>, p: seq<Rune>, n: int)
    requires 0 <= n <= |p|
    ensures Boundaries(u, tables, p[..n]) == LocalBoundaries(u, tables, p, n)
  {
    if n == 0 {
      assert p[..0] == [];
    } else {
      BoundariesByNeighbours(u, tables, p, n - 1);
      ScanStep(u, tables, p, n - 1);
      if n > 1 {
        StateAfterLast(u, tables, p[..n - 1]);
      }
    }
  }

  /** A token whose first rune is not a letter, digit or punctuation has no boundary at 0. */
  lemma FirstRuneBoundary(u: Unicode, tables: seq<RangeTable>, p: seq<Rune>)
    requires p != []
    ensures 0 in Boundaries(u, tables, p) <==> RuneClassOf(u, p[0]) != Undef
  {
    BoundariesAreLocal(u, tables, p, 0);
  }

  /** Two runes of one class and, when letters, of one table. */
  predicate SameRun(u: Unicode, tables: seq<RangeTable>, a: Rune, b: Rune)
  {
    RuneClassOf(u, a) == RuneClassOf(u, b) &&
    (RuneClassOf(u, a) == Letter ==> TableIndex(tables, a) == TableIndex(tables, b))
  }

  /** Every rune of a segment (between two consecutive edges) belongs to the segment's first rune's run. */
  lemma {:induction false} SegmentIsOneRun(u: Unicode, tables: seq<RangeTable>, p: seq<Rune>, i: int, k: int)
    requires var e := Edges(u, tables, p); 0 <= i < |e| - 1 && e[i] <= k < e[i + 1]
    ensures SameRun(u, tables, p[Edges(u, tables, p)[i]], p[k])
    decreases k
  {
    var e := Edges(u, tables, p);
    var b := Boundaries(u, tables, p);
    if k > e[i] {
      SegmentIsOneRun(u, tables, p, i, k - 1);
      forall m | 0 <= m < |b|
        ensures b[m] != k
      {
        if m < i {
          OffsetsBetween(p, e, m, i);
        } else if m > i + 1 {
          OffsetsBetween(p, e, i + 1, m);
        }
      }
      BoundariesAreLocal(u, tables, p, k);
    }
  }

  /**
   * Every key is a non-empty slice of the token that starts at a boundary and
   * ends at a later boundary or at the end of the token, at most `depth`
   * edges further on.
   */
  lemma KeysAreEdgeSlices(u: Unicode, tables: seq<RangeTable>, token: seq<Rune>, depth: int, k: seq<Rune>)
    requires k in SubtokenKeys(u, tables, token, depth)
    ensures |k| >= 1
    ensures var e := Edges(u, tables, token);
      exists i, j :: 0 <= i < j < |e| && j - i <= depth && e[i] < e[j] &&
        e[i] in Boundaries(u, tables, token) && k == token[e[i]..e[j]]
  {
    var e := Edges(u, tables, token);
    var i, j :| 0 <= i < j < |e| && j - i <= depth && Fits(token, e, i, j) && k == Piece(token, e, i, j);
    OffsetsBetween(token, e, i, j);
    assert e[i] == Boundaries(u, tables, token)[i];
  }

  /**
   * Conversely, the slice between any two edges at most `depth` apart is a
   * key; with depth >= 1 that includes every segment between consecutive edges.
   */
  lemma EdgeSliceIsKey(u: Unicode, tables: seq<RangeTable>, token: seq<Rune>, depth: int, i: int, j: int)
    requires var e := Edges(u, tables, token); 0 <= i < j < |e| && j - i <= depth
    ensures var e := Edges(u, tables, token);
      0 <= e[i] < e[j] <= |token| && token[e[i]..e[j]] in SubtokenKeys(u, tables, token, depth)
  {
    var e := Edges(u, tables, token);
    OffsetsBetween(token, e, i, j);
    assert Fits(token, e, i, j);
  }

  /** Depth 0 and the empty token give no keys. */
  lemma NoKeys(u: Unicode, tables: seq<RangeTable>, token: seq<Rune>, depth: int)
    requires depth <= 0 || token == []
    ensures SubtokenKeys(u, tables, token, depth) == {}
  {
    if token == [] {
      assert Edges(u, tables, token) == [0];
    }
  }

  /** The slices from edge i to each edge j with i < j < hi: what one extract of the buffer records. */
  ghost function Row(p: seq<Rune>, e: seq<int>, i: int, hi: int): set<seq<Rune>>
  {
    set j | i < j < hi && j < |e| && Fits(p, e, i, j) :: Piece(p, e, i, j)
  }

  /** The slices recorded for the left edges 0 .. n-1, each reaching at most `depth` edges further. */
  ghost function Windows(p: seq<Rune>, e: seq<int>, depth: int, n: int): set<seq<Rune>>
  {
    set i, j | 0 <= i < n && i < j < |e| && j - i <= depth && Fits(p, e, i, j) :: Piece(p, e, i, j)
  }

  /** One more right edge in a row adds exactly its slice. */
  lemma RowNext(p: seq<Rune>, e: seq<int>, i: int, hi: int)
    requires Fits(p, e, i, hi)
    ensures Row(p, e, i, hi + 1) == Row(p, e, i, hi) + {Piece(p, e, i, hi)}
  {
  }

  /** When the windows reach the last edge, left edge n - 1 contributes its whole row. */
  lemma WindowsLast(p: seq<Rune>, e: seq<int>, depth: int, n: int)
    requires 0 < n <= |e| <= n + depth
    ensures Windows(p, e, depth, n) == Windows(p, e, depth, n - 1) + Row(p, e, n - 1, |e|)
  {
    forall k | k in Windows(p, e, depth, n)
      ensures k in Windows(p, e, depth, n - 1) + Row(p, e, n - 1, |e|)
    {
      var i, j :| 0 <= i < n && i < j < |e| && j - i <= depth && Fits(p, e, i, j) && k == Piece(p, e, i, j);
      if i == n - 1 {
        assert k in Row(p, e, n - 1, |e|);
      }
    }
  }

  /** Windows that end before the last edge of `e` do not change when more edges follow. */
  lemma WindowsPrefix(p: seq<Rune>, e: seq<int>, e2: seq<int>, depth: int, n: int)
    requires |e| <= |e2| && e == e2[..|e|]
    requires n <= 0 || n + depth <= |e|
    ensures Windows(p, e, depth, n) == Windows(p, e2, depth, n)
  {
    forall k | k in Windows(p, e2, depth, n)
      ensures k in Windows(p, e, depth, n)
    {
      var i, j :| 0 <= i < n && i < j < |e2| && j - i <= depth && Fits(p, e2, i, j) && k == Piece(p, e2, i, j);
      assert e[i] == e2[i] && e[j] == e2[j];
      assert Piece(p, e, i, j) == k;
    }
    forall k | k in Windows(p, e, depth, n)
      ensures k in Windows(p, e2, depth, n)
    {
      var i, j :| 0 <= i < n && i < j < |e| && j - i <= depth && Fits(p, e, i, j) && k == Piece(p, e, i, j);
      assert e[i] == e2[i] && e[j] == e2[j];
      assert Piece(p, e2, i, j) == k;
    }
  }

  /** How many left edges have had their window completed once |e| edges were pushed. */
  function Closed(e: seq<int>, depth: int): int
  {
    if |e| > depth then |e| - depth else 0
  }

  /** One more rune: the state and the boundary list grow as pushRune says. */
  lemma ScanStep(u: Unicode, tables: seq<RangeTable>, token: seq<Rune>, index: int)
    requires 0 <= index < |token|
    ensures StateAfter(u, tables, token[..index + 1]) == NextState(u, tables, StateAfter(u, tables, token[..index]), token[index])
    ensures Boundaries(u, tables, token[..index + 1]) == Boundaries(u, tables, token[..index]) +
      (if IsBoundary(u, tables, StateAfter(u, tables, token[..index]), token[index]) then [index] else [])
  {
    assert token[..index + 1][..index] == token[..index];
  }

  /**
   * The inner loop of an extract: the slice from `left` to each offset of
   * `rightArray` becomes a key. With left = e[i] and rightArray = e[i+1..],
   * that adds row i of the windows.
   */
  method RecordRow(token: seq<Rune>, ghost e: seq<int>, ghost i: int, left: int, rightArray: seq<int>,
                   subTokens: map<seq<Rune>, bool>) returns (result: map<seq<Rune>, bool>)
    requires 0 <= i < |e| && forall j :: i < j < |e| ==> Fits(token, e, i, j)
    requires left == e[i] && rightArray == e[i + 1..]
    requires forall k :: k in subTokens ==> subTokens[k]
    ensures result.Keys == subTokens.Keys + Row(token, e, i, |e|)
    ensures forall k :: k in result ==> result[k]
  {
    result := subTokens;
    for t := 0 to |rightArray|
      invariant result.Keys == subTokens.Keys + Row(token, e, i, i + 1 + t)
      invariant forall k :: k in result ==> result[k]
    {
      assert Fits(token, e, i, i + 1 + t) && rightArray[t] == e[i + 1 + t];
      RowNext(token, e, i, i + 1 + t);
      result := result[token[left..rightArray[t]] := true];
    }
  }

  /**
   * The extractor's own state: the registered range tables and the scan state
   * of the token being cut.
   */
  class SmartToken {
    var rangeTableList: seq<RangeTable>
    var rangeTableIndex: int
    var runeClass: RuneClass

    /** Go's zero value `var st SmartToken`: no tables, index 0, class 0 (runeClassLetter). */
    constructor ()
      ensures rangeTableList == [] && rangeTableIndex == 0 && runeClass == Letter
    {
      rangeTableList := [];
      rangeTableIndex := 0;
      runeClass := Letter;
    }

    function State(): ScanState
      reads this
    {
      ScanState(runeClass, rangeTableIndex)
    }

    /** Registers one more table; earlier tables keep their indices. */
    method AddRangeTable(rt: RangeTable)
      modifies this
      ensures rangeTableList == old(rangeTableList) + [rt]
      ensures State() == old(State())
    {
      rangeTableList := rangeTableList + [rt];
    }

    method Flush()
      modifies this
      ensures State() == Flushed
      ensures rangeTableList == old(rangeTableList)
    {
      runeClass := Undef;
      rangeTableIndex := -1;
    }

    /** getTableIndex: a first-match scan over the registered tables. */
    method GetTableIndex(r: Rune) returns (index: int)
      ensures -1 <= index < |rangeTableList|
      ensures 0 <= index ==> r in rangeTableList[index]
      ensures forall j :: 0 <= j < |rangeTableList| && (index == -1 || j < index) ==> r !in rangeTableList[j]
      ensures index == TableIndex(rangeTableList, r)
    {
      TableIndexFirstMatch(rangeTableList, r);
      index := 0;
      while index < |rangeTableList|
        invariant 0 <= index <= |rangeTableList|
        invariant forall j :: 0 <= j < index ==> r !in rangeTableList[j]
      {
        if r in rangeTableList[index] {
          return;
        }
        index := index + 1;
      }
      index := -1;
    }

    /**
     * pushRune: records the class of `r` (and its table, when a letter) and
     * reports whether either changed.
     */
    method PushRune(u: Unicode, r: Rune) returns (boundary: bool)
      modifies this
      ensures rangeTableList == old(rangeTableList)
      ensures runeClass == RuneClassOf(u, r)
      ensures rangeTableIndex == if runeClass == Letter then TableIndex(rangeTableList, r) else old(rangeTableIndex)
      ensures boundary <==> runeClass != old(runeClass) || (runeClass == Letter && rangeTableIndex != old(rangeTableIndex))
      ensures State() == NextState(u, rangeTableList, old(State()), r)
      ensures boundary == IsBoundary(u, rangeTableList, old(State()), r)
    {
      boundary := false;
      var newRuneClass := RuneClassOf(u, r);
      if newRuneClass == Letter {
        var newRangeTableIndex := GetTableIndex(r);
        if newRangeTableIndex != rangeTableIndex {
          rangeTableIndex := newRangeTableIndex;
          boundary := true;
        }
      }
      if newRuneClass != runeClass {
        runeClass := newRuneClass;
        boundary := true;
      }
    }

    /** The scan invariant after the first `index` runes of `token`. */
    ghost predicate Scanning(u: Unicode, token: seq<Rune>, index: int, depth: int, cb: CircularBuffer,
                             e: seq<int>, subTokens: map<seq<Rune>, bool>)
      reads this, cb, cb.buffer
    {
      && 0 <= index <= |token| && depth >= 0
      && State() == StateAfter(u, rangeTableList, token[..index])
      && e == Boundaries(u, rangeTableList, token[..index])
      && cb.Valid() && cb.buffer.Length == depth + 1
      && cb.Contents == Last(e, depth + 1)
      && subTokens.Keys == Windows(token, e, depth, Closed(e, depth))
      && (forall k :: k in subTokens ==> subTokens[k])
    }

    /** One iteration of the scan loop: push the rune at `index` and enqueue it if it starts a segment. */
    method ScanRune(u: Unicode, token: seq<Rune>, index: int, depth: int, cb: CircularBuffer,
                    ghost e: seq<int>, subTokens: map<seq<Rune>, bool>)
      returns (ghost e': seq<int>, subTokens': map<seq<Rune>, bool>)
      requires index < |token| && Scanning(u, token, index, depth, cb, e, subTokens)
      modifies this, cb, cb.buffer
      ensures rangeTableList == old(rangeTableList) && cb.buffer == old(cb.buffer)
      ensures Scanning(u, token, index + 1, depth, cb, e', subTokens')
    {
      ghost var tables := rangeTableList;
      ScanStep(u, tables, token, index);
      var boundary := PushRune(u, token[index]);
      e' := Boundaries(u, tables, token[..index + 1]);
      BoundariesInToken(u, tables, token, index + 1);
      subTokens' := subTokens;
      if boundary {
        assert e' == e + [index];
        subTokens' := Enqueue(token, depth, cb, e, index, subTokens);
      } else {
        assert e' == e;
      }
    }

    /**
     * GetSubtokensWithDepth: every slice of `token` spanning at most `depth`
     * boundary segments, each mapped to true.
     */
    method GetSubtokensWithDepth(u: Unicode, token: seq<Rune>, depth: int) returns (subTokens: map<seq<Rune>, bool>)
      requires depth >= 0
      modifies this
      ensures rangeTableList == old(rangeTableList)
      ensures State() == StateAfter(u, rangeTableList, token)
      ensures subTokens.Keys == SubtokenKeys(u, rangeTableList, token, depth)
      ensures forall k :: k in subTokens ==> subTokens[k]
    {
      Flush();
      subTokens := map[];
      var cb := new CircularBuffer(depth + 1);
      ghost var e: seq<int> := [];
      var index := 0;
      while index < |token|
        invariant rangeTableList == old(rangeTableList)
        invariant fresh(cb) && fresh(cb.buffer)
        invariant Scanning(u, token, index, depth, cb, e, subTokens)
      {
        e, subTokens := ScanRune(u, token, index, depth, cb, e, subTokens);
        index := index + 1;
      }
      assert token[..index] == token;
      assert e + [|token|] == Edges(u, rangeTableList, token);
      subTokens := Finish(token, depth, cb, e, subTokens);
    }
  }

  /** The offsets of boundaries in a prefix of `token` are offsets into `token`. */
  lemma BoundariesInToken(u: Unicode, tables: seq<RangeTable>, token: seq<Rune>, n: int)
    requires 0 <= n <= |token|
    ensures Offsets(token, Boundaries(u, tables, token[..n]))
  {
    BoundariesIncrease(u, tables, token[..n]);
  }

  /**
   * `cb.push(offset)` during the scan and, once the buffer is full, the
   * extract of the oldest offset with its row of subtokens.
   */
  method Enqueue(token: seq<Rune>, depth: int, cb: CircularBuffer, ghost e: seq<int>, offset: int,
                 subTokens: map<seq<Rune>, bool>) returns (result: map<seq<Rune>, bool>)
    requires depth >= 0 && Offsets(token, e + [offset])
    requires cb.Valid() && cb.buffer.Length == depth + 1 && cb.Contents == Last(e, depth + 1)
    requires subTokens.Keys == Windows(token, e, depth, Closed(e, depth))
    requires forall k :: k in subTokens ==> subTokens[k]
    modifies cb, cb.buffer
    ensures cb.Valid() && cb.buffer == old(cb.buffer) && cb.Contents == Last(e + [offset], depth + 1)
    ensures result.Keys == Windows(token, e + [offset], depth, Closed(e + [offset], depth))
    ensures forall k :: k in result ==> result[k]
  {
    ghost var e' := e + [offset];
    cb.Push(offset);
    PushKeepsNewest(e, depth + 1, offset);
    result := subTokens;
    if cb.Full() {
      WindowsBeforePush(token, e, offset, depth);
      result := CloseRow(token, depth, cb, e', subTokens);
    } else {
      assert Closed(e', depth) == 0;
    }
  }

  /**
   * When the push of `x` fills the buffer, the windows closed before it are
   * those of the first |e| - depth left edges of the longer edge list.
   */
  lemma WindowsBeforePush(p: seq<Rune>, e: seq<int>, x: int, depth: int)
    requires 0 <= depth <= |e|
    ensures Windows(p, e, depth, Closed(e, depth)) == Windows(p, e + [x], depth, |e| - depth)
  {
    assert e == (e + [x])[..|e|];
    WindowsPrefix(p, e, e + [x], depth, |e| - depth);
  }

  /** A full buffer during the scan: its oldest offset gets its row of subtokens. */
  method CloseRow(token: seq<Rune>, depth: int, cb: CircularBuffer, ghost e: seq<int>,
                  subTokens: map<seq<Rune>, bool>) returns (result: map<seq<Rune>, bool>)
    requires depth >= 0 && Offsets(token, e) && |e| >= depth + 1
    requires cb.Valid() && cb.buffer.Length == depth + 1 && cb.Contents == Last(e, depth + 1)
    requires subTokens.Keys == Windows(token, e, depth, |e| - depth - 1)
    requires forall k :: k in subTokens ==> subTokens[k]
    ensures result.Keys == Windows(token, e, depth, Closed(e, depth))
    ensures forall k :: k in result ==> result[k]
  {
    var left, rightArray := cb.Extract();
    ghost var i := |e| - depth - 1;
    WindowsLast(token, e, depth, i + 1);
    OffsetsFrom(token, e, i);
    result := RecordRow(token, e, i, left, rightArray, subTokens);
  }

  /**
   * After the scan: `cb.push(len(token))`, then the drain loop, which records
   * the rows of the offsets still buffered.
   */
  method Finish(token: seq<Rune>, depth: int, cb: CircularBuffer, ghost e: seq<int>,
                subTokens: map<seq<Rune>, bool>) returns (result: map<seq<Rune>, bool>)
    requires depth >= 0 && Offsets(token, e + [|token|])
    requires cb.Valid() && cb.buffer.Length == depth + 1 && cb.Contents == Last(e, depth + 1)
    requires subTokens.Keys == Windows(token, e, depth, Closed(e, depth))
    requires forall k :: k in subTokens ==> subTokens[k]
    modifies cb, cb.buffer
    ensures result.Keys == Spans(token, e + [|token|], depth)
    ensures forall k :: k in result ==> result[k]
  {
    ghost var edges := e + [|token|];
    cb.Push(|token|);
    PushKeepsNewest(e, depth + 1, |token|);
    ghost var s := |edges| - Min(|edges|, depth + 1);
    assert e == edges[..|e|];
    WindowsPrefix(token, e, edges, depth, s);
    assert Closed(e, depth) == s;
    result := Drain(token, depth, cb, edges, s, subTokens);
    assert Windows(token, edges, depth, |edges|) == Spans(token, edges, depth);
  }

  /** The drain loop: extract the oldest offset, record its row, pop it, until the buffer is empty. */
  method Drain(token: seq<Rune>, depth: int, cb: CircularBuffer, ghost edges: seq<int>, ghost s: int,
               subTokens: map<seq<Rune>, bool>) returns (result: map<seq<Rune>, bool>)
    requires depth >= 0 && Offsets(token, edges) && 0 <= s <= |edges|
    requires cb.Valid() && cb.buffer.Length == depth + 1 && cb.Contents == edges[s..]
    requires |edges| - s <= depth + 1
    requires subTokens.Keys == Windows(token, edges, depth, s)
    requires forall k :: k in subTokens ==> subTokens[k]
    modifies cb
    ensures cb.Contents == []
    ensures result.Keys == Windows(token, edges, depth, |edges|)
    ensures forall k :: k in result ==> result[k]
  {
    result := subTokens;
    ghost var t := s;
    while !cb.Empty()
      invariant cb.Valid() && cb.buffer.Length == depth + 1
      invariant s <= t <= |edges| && cb.Contents == edges[t..]
      invariant result.Keys == Windows(token, edges, depth, t)
      invariant forall k :: k in result ==> result[k]
      decreases |cb.Contents|
    {
      result := DrainStep(token, depth, cb, edges, t, result);
      t := t + 1;
    }
  }

  /** One round of the drain loop: extract the oldest offset, record its row, pop it. */
  method DrainStep(token: seq<Rune>, depth: int, cb: CircularBuffer, ghost edges: seq<int>, ghost t: int,
                   subTokens: map<seq<Rune>, bool>) returns (result: map<seq<Rune>, bool>)
    requires depth >= 0 && Offsets(token, edges) && 0 <= t < |edges| && |edges| - t <= depth + 1
    requires cb.Valid() && cb.buffer.Length == depth + 1 && cb.Contents == edges[t..]
    requires subTokens.Keys == Windows(token, edges, depth, t)
    requires forall k :: k in subTokens ==> subTokens[k]
    modifies cb
    ensures cb.Valid() && cb.buffer.Length == depth + 1 && cb.Contents == edges[t + 1..]
    ensures result.Keys == Windows(token, edges, depth, t + 1)
    ensures forall k :: k in result ==> result[k]
  {
    var left, rightArray := cb.Extract();
    OffsetsFrom(token, edges, t);
    result := RecordRow(token, edges, t, left, rightArray, subTokens);
    WindowsLast(token, edges, depth, t + 1);
    cb.Pop();
  }
}
