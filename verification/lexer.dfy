/** The merge step of the scanner: every category's matches are gathered in
    pattern order, stably sorted by source offset, and the offsets dropped.
    The regular-expression search itself is an input, except for the
    single-character categories, which `ScanChars` models. */
module Lexer {
  import opened Tokens

  /** One match of a category's pattern: matched text and start offset. */
  datatype Span = Span(lexeme: string, offset: nat)

  // ---------------------------------------------------------------------
  // Gathering the matches of all categories
  // ---------------------------------------------------------------------

  /** Tags the spans of one category with its kind. */
  function Tag(k: TokenKind, spans: seq<Span>): (ms: seq<Match>)
    ensures |ms| == |spans|
    ensures forall i :: 0 <= i < |ms| ==>
      ms[i] == Match(k, spans[i].lexeme, spans[i].offset)
  {
    if spans == [] then [] else [Match(k, spans[0].lexeme, spans[0].offset)] + Tag(k, spans[1..])
  }

  /** The matches of categories `Patterns[from..]`, appended category by
      category, as the outer loop over the pattern list appends them. */
  function CollectFrom(found: seq<seq<Span>>, from: nat): seq<Match>
    requires |found| == |Patterns| && from <= |Patterns|
    decreases |Patterns| - from, found  // `found` in the measure: a call is not unfolded eagerly
  {
    if from == |Patterns| then []
    else Tag(Patterns[from], found[from]) + CollectFrom(found, from + 1)
  }

  /** All matches, in the order they are appended before sorting. */
  function Collect(found: seq<seq<Span>>): seq<Match>
    requires |found| == |Patterns|
  {
    CollectFrom(found, 0)
  }

  /** Matches appear in pattern-list order. */
  ghost predicate InPatternOrder(ms: seq<Match>) {
    forall i, j :: 0 <= i < j < |ms| ==> Rank(ms[i].kind) <= Rank(ms[j].kind)
  }

  /** A block of one category's matches followed by matches of that
      category or later ones stays in pattern-list order. */
  lemma AppendInPatternOrder(head: seq<Match>, tail: seq<Match>, r: nat)
    requires forall m :: m in head ==> Rank(m.kind) == r
    requires forall m :: m in tail ==> r <= Rank(m.kind)
    requires InPatternOrder(tail)
    ensures InPatternOrder(head + tail)
    ensures forall m :: m in head + tail ==> r <= Rank(m.kind)
  {
    var s := head + tail;
    forall i, j | 0 <= i < j < |s| ensures Rank(s[i].kind) <= Rank(s[j].kind) {
      if j < |head| {
        assert s[i] == head[i] && s[j] == head[j];
      } else if i < |head| {
        assert s[i] == head[i] && s[j] == tail[j - |head|];
      } else {
        assert s[i] == tail[i - |head|] && s[j] == tail[j - |head|];
      }
    }
  }

  lemma TagKinds(k: TokenKind, spans: seq<Span>)
    ensures forall m :: m in Tag(k, spans) ==> m.kind == k
  {
    forall m | m in Tag(k, spans) ensures m.kind == k {
      var i :| 0 <= i < |spans| && Tag(k, spans)[i] == m;
    }
  }

  lemma {:induction false} CollectFromInPatternOrder(found: seq<seq<Span>>, from: nat)
    requires |found| == |Patterns| && from <= |Patterns|
    ensures InPatternOrder(CollectFrom(found, from))
    ensures forall m :: m in CollectFrom(found, from) ==> from <= Rank(m.kind)
    decreases |Patterns| - from
  {
    if from < |Patterns| {
      CollectFromInPatternOrder(found, from + 1);
      var head := Tag(Patterns[from], found[from]);
      PatternsAreDistinct();
      TagKinds(Patterns[from], found[from]);
      AppendInPatternOrder(head, CollectFrom(found, from + 1), from);
    }
  }

  /** The gathered matches are grouped by category, in pattern-list order. */
  lemma CollectInPatternOrder(found: seq<seq<Span>>)
    requires |found| == |Patterns|
    ensures InPatternOrder(Collect(found))
  {
    CollectFromInPatternOrder(found, 0);
  }

  // ---------------------------------------------------------------------
  // Stable sort by offset
  // ---------------------------------------------------------------------

  ghost predicate SortedByOffset(ms: seq<Match>) {
    forall i, j :: 0 <= i < j < |ms| ==> ms[i].offset <= ms[j].offset
  }

  /** The subsequence of matches that start at offset `o`, in order. */
  function AtOffset(ms: seq<Match>, o: nat): seq<Match> {
    if ms == [] then []
    else (if ms[0].offset == o then [ms[0]] else []) + AtOffset(ms[1..], o)
  }

  /** A stable sort by offset of `ms`: ordered by offset, and the matches at
      each offset keep the order they have in `ms`. */
  ghost predicate StableSortOf(r: seq<Match>, ms: seq<Match>) {
    && SortedByOffset(r)
    && forall o: nat :: AtOffset(r, o) == AtOffset(ms, o)
  }

  lemma {:induction false} AtOffsetConcat(a: seq<Match>, b: seq<Match>, o: nat)
    ensures AtOffset(a + b, o) == AtOffset(a, o) + AtOffset(b, o)
  {
    if a != [] {
      assert (a + b)[1..] == a[1..] + b;
      AtOffsetConcat(a[1..], b, o);
    } else {
      assert a + b == b;
    }
  }

  lemma {:induction false} AtOffsetMembers(ms: seq<Match>, o: nat)
    ensures forall m :: m in AtOffset(ms, o) <==> m in ms && m.offset == o
  {
    if ms != [] {
      AtOffsetMembers(ms[1..], o);
      assert forall m :: m in ms <==> m == ms[0] || m in ms[1..];
    }
  }

  /** Inserts `m` before the first match whose offset is not smaller. */
  function Insert(s: seq<Match>, m: Match): seq<Match> {
    if s == [] then [m]
    else if m.offset <= s[0].offset then [m] + s
    else [s[0]] + Insert(s[1..], m)
  }

  lemma {:induction false} InsertPermutes(s: seq<Match>, m: Match)
    ensures multiset(Insert(s, m)) == multiset(s) + multiset{m}
  {
    if s != [] && m.offset > s[0].offset {
      InsertPermutes(s[1..], m);
      assert s == [s[0]] + s[1..];
    }
  }

  lemma {:induction false} InsertMembers(s: seq<Match>, m: Match)
    ensures forall x :: x in Insert(s, m) <==> x == m || x in s
  {
    InsertPermutes(s, m);
    assert forall x :: x in Insert(s, m) <==> x in multiset(Insert(s, m));
    assert forall x :: x in s <==> x in multiset(s);
  }

  lemma {:induction false} InsertSorted(s: seq<Match>, m: Match)
    requires SortedByOffset(s)
    ensures SortedByOffset(Insert(s, m))
  {
    if s != [] && m.offset > s[0].offset {
      var rest := Insert(s[1..], m);
      InsertSorted(s[1..], m);
      InsertMembers(s[1..], m);
      var r := [s[0]] + rest;
      forall i, j | 0 <= i < j < |r| ensures r[i].offset <= r[j].offset {
        assert r[j] == rest[j - 1];
        assert rest[j - 1] in rest;
        if i > 0 {
          assert r[i] == rest[i - 1];
        } else if rest[j - 1] != m {
          var k :| 0 <= k < |s[1..]| && s[1..][k] == rest[j - 1];
          assert s[k + 1] == rest[j - 1];
        }
      }
    }
  }

  lemma {:induction false} InsertAtOffset(s: seq<Match>, m: Match, o: nat)
    ensures AtOffset(Insert(s, m), o) ==
      if m.offset == o then [m] + AtOffset(s, o) else AtOffset(s, o)
  {
    if s == [] {
    } else if m.offset <= s[0].offset {
      assert ([m] + s)[1..] == s;
    } else {
      InsertAtOffset(s[1..], m, o);
      assert ([s[0]] + Insert(s[1..], m))[1..] == Insert(s[1..], m);
    }
  }

  /** Stable insertion sort by offset. */
  function SortByOffset(ms: seq<Match>): seq<Match> {
    if ms == [] then [] else Insert(SortByOffset(ms[1..]), ms[0])
  }

  lemma {:induction false} SortByOffsetPermutes(ms: seq<Match>)
    ensures multiset(SortByOffset(ms)) == multiset(ms)
  {
    if ms != [] {
      SortByOffsetPermutes(ms[1..]);
      InsertPermutes(SortByOffset(ms[1..]), ms[0]);
      assert ms == [ms[0]] + ms[1..];
    }
  }

  lemma {:induction false} SortByOffsetSorted(ms: seq<Match>)
    ensures SortedByOffset(SortByOffset(ms))
  {
    if ms != [] {
      SortByOffsetSorted(ms[1..]);
      InsertSorted(SortByOffset(ms[1..]), ms[0]);
    }
  }

  lemma {:induction false} SortByOffsetAtOffset(ms: seq<Match>, o: nat)
    ensures AtOffset(SortByOffset(ms), o) == AtOffset(ms, o)
  {
    if ms != [] {
      SortByOffsetAtOffset(ms[1..], o);
      InsertAtOffset(SortByOffset(ms[1..]), ms[0], o);
    }
  }

  /** Insertion sort is a stable sort by offset. */
  lemma SortByOffsetIsStableSort(ms: seq<Match>)
    ensures multiset(SortByOffset(ms)) == multiset(ms)
    ensures StableSortOf(SortByOffset(ms), ms)
  {
    SortByOffsetPermutes(ms);
    SortByOffsetSorted(ms);
    forall o: nat ensures AtOffset(SortByOffset(ms), o) == AtOffset(ms, o) {
      SortByOffsetAtOffset(ms, o);
    }
  }

  lemma HeadInGroup(s: seq<Match>)
    ensures s != [] ==> AtOffset(s, s[0].offset) != []
  {
  }

  /** Two stable sorts of the same matches are equal: the result is fixed by
      sortedness and the per-offset order alone, so any stable sort (the
      language's built-in one included) yields the same sequence. */
  lemma {:induction false} StableSortUnique(a: seq<Match>, b: seq<Match>)
    requires SortedByOffset(a) && SortedByOffset(b)
    requires forall o: nat :: AtOffset(a, o) == AtOffset(b, o)
    ensures a == b
    decreases |a|
  {
    if a == [] || b == [] {
      // a match of the non-empty side would be missing from the other
      HeadInGroup(a);
      HeadInGroup(b);
    } else {
      var oa, ob := a[0].offset, b[0].offset;
      AtOffsetMembers(a, ob);
      AtOffsetMembers(b, oa);
      assert b[0] in AtOffset(b, ob);
      assert b[0] in a;
      assert a[0] in AtOffset(a, oa);
      assert a[0] in b;
      assert oa == ob;
      assert AtOffset(a, oa) == [a[0]] + AtOffset(a[1..], oa);
      assert AtOffset(b, oa) == [b[0]] + AtOffset(b[1..], oa);
      assert AtOffset(a, oa) == AtOffset(b, oa);
      assert AtOffset(a, oa)[0] == a[0] && AtOffset(b, oa)[0] == b[0];
      forall o: nat ensures AtOffset(a[1..], o) == AtOffset(b[1..], o) {
        assert AtOffset(a, o) == AtOffset(b, o);
        assert AtOffset(a, o) == (if oa == o then [a[0]] else []) + AtOffset(a[1..], o);
        assert AtOffset(b, o) == (if oa == o then [b[0]] else []) + AtOffset(b[1..], o);
        if oa == o {
          assert AtOffset(a[1..], o) == AtOffset(a, o)[1..];
          assert AtOffset(b[1..], o) == AtOffset(b, o)[1..];
        } else {
          assert AtOffset(a, o) == AtOffset(a[1..], o);
          assert AtOffset(b, o) == AtOffset(b[1..], o);
        }
      }
      StableSortUnique(a[1..], b[1..]);
      assert a == [a[0]] + a[1..] && b == [b[0]] + b[1..];
    }
  }

  /** Sorting keeps ties in the order of its input: matches that start at the
      same offset stay in pattern-list order when the input was. */
  lemma {:induction false} TiesKeepInputOrder(r: seq<Match>, ms: seq<Match>)
    requires InPatternOrder(ms)
    requires forall o: nat :: AtOffset(r, o) == AtOffset(ms, o)
    ensures forall i, j :: 0 <= i < j < |r| && r[i].offset == r[j].offset ==>
      Rank(r[i].kind) <= Rank(r[j].kind)
  {
    forall o: nat ensures InPatternOrder(AtOffset(r, o)) {
      AtOffsetInPatternOrder(ms, o);
    }
    TiesFromGroups(r);
  }

  lemma {:induction false} AtOffsetInPatternOrder(ms: seq<Match>, o: nat)
    requires InPatternOrder(ms)
    ensures InPatternOrder(AtOffset(ms, o))
  {
    if ms != [] {
      AtOffsetInPatternOrder(ms[1..], o);
      AtOffsetMembers(ms[1..], o);
      var t := AtOffset(ms[1..], o);
      forall m | m in t ensures Rank(ms[0].kind) <= Rank(m.kind) {
        var k :| 0 <= k < |ms[1..]| && ms[1..][k] == m;
        assert ms[k + 1] == m;
      }
      if ms[0].offset == o {
        AppendInPatternOrder([ms[0]], t, Rank(ms[0].kind));
      }
    }
  }

  /** The group of matches at `r[i].offset` holds `r[i]` at the index
      given by the number of same-offset matches before it. */
  lemma GroupIndex(r: seq<Match>, i: nat)
    requires i < |r|
    ensures |AtOffset(r[..i], r[i].offset)| < |AtOffset(r, r[i].offset)|
    ensures AtOffset(r, r[i].offset)[|AtOffset(r[..i], r[i].offset)|] == r[i]
  {
    var o := r[i].offset;
    assert r == r[..i] + r[i..];
    AtOffsetConcat(r[..i], r[i..], o);
    assert r[i..][1..] == r[i + 1..];
  }

  lemma GroupIndexIncreases(r: seq<Match>, i: nat, j: nat)
    requires i < j < |r| && r[i].offset == r[j].offset
    ensures |AtOffset(r[..i], r[i].offset)| < |AtOffset(r[..j], r[i].offset)|
  {
    var o := r[i].offset;
    assert r[..j] == r[..i] + r[i..j];
    AtOffsetConcat(r[..i], r[i..j], o);
    assert r[i..j][0] == r[i];
  }

  lemma TiesFromGroups(r: seq<Match>)
    requires forall o: nat :: InPatternOrder(AtOffset(r, o))
    ensures forall i, j :: 0 <= i < j < |r| && r[i].offset == r[j].offset ==>
      Rank(r[i].kind) <= Rank(r[j].kind)
  {
    forall i, j | 0 <= i < j < |r| && r[i].offset == r[j].offset
      ensures Rank(r[i].kind) <= Rank(r[j].kind)
    {
      GroupIndex(r, i);
      GroupIndex(r, j);
      GroupIndexIncreases(r, i, j);
      assert InPatternOrder(AtOffset(r, r[i].offset));
    }
  }

  // ---------------------------------------------------------------------
  // Tokenize
  // ---------------------------------------------------------------------

  /** The merged, sorted match list that tokenizing produces before the
      offsets are dropped. */
  function Merge(found: seq<seq<Span>>): seq<Match>
    requires |found| == |Patterns|
  {
    SortByOffset(Collect(found))
  }

  /** Tokenizing on a fresh scanner: merge, sort by offset, drop offsets. */
  function Tokenize(found: seq<seq<Span>>): seq<Token>
    requires |found| == |Patterns|
  {
    var ms := Merge(found);
    seq(|ms|, i requires 0 <= i < |ms| => ToToken(ms[i]))
  }

  /** The merged matches are a permutation of all category matches, ordered
      by non-decreasing offset, with same-offset matches in pattern order and
      in the order their category listed them. */
  lemma MergeIsStableSort(found: seq<seq<Span>>)
    requires |found| == |Patterns|
    ensures multiset(Merge(found)) == multiset(Collect(found))
    ensures SortedByOffset(Merge(found))
    ensures forall o: nat :: AtOffset(Merge(found), o) == AtOffset(Collect(found), o)
    ensures forall i, j ::
      0 <= i < j < |Merge(found)| && Merge(found)[i].offset == Merge(found)[j].offset ==>
        Rank(Merge(found)[i].kind) <= Rank(Merge(found)[j].kind)
  {
    SortByOffsetIsStableSort(Collect(found));
    CollectInPatternOrder(found);
    TiesKeepInputOrder(Merge(found), Collect(found));
  }

  /** Tokenize agrees with dropping the offsets of ANY stable sort of the
      gathered matches. */
  lemma TokenizeIsAnyStableSort(found: seq<seq<Span>>, sorted: seq<Match>)
    requires |found| == |Patterns|
    requires StableSortOf(sorted, Collect(found))
    ensures |Tokenize(found)| == |sorted|
    ensures forall i :: 0 <= i < |sorted| ==> Tokenize(found)[i] == ToToken(sorted[i])
  {
    SortByOffsetIsStableSort(Collect(found));
    StableSortUnique(Merge(found), sorted);
  }

  // ---------------------------------------------------------------------
  // Single-character categories
  // ---------------------------------------------------------------------

  /** The single-character patterns: `[A-Z]`, `(`, `)`, `,` and `.`. */
  datatype CharClass = Upper | Exactly(c: char)

  predicate Accepts(cls: CharClass, ch: char) {
    match cls
    case Upper => 'A' <= ch <= 'Z'
    case Exactly(c) => ch == c
  }

  /** All matches of a single-character pattern in `text[from..]`, left to
      right, as a global search finds them. */
  function ScanChars(text: string, cls: CharClass, from: nat): seq<Span>
    requires from <= |text|
    decreases |text| - from
  {
    if from == |text| then []
    else if Accepts(cls, text[from]) then [Span([text[from]], from)] + ScanChars(text, cls, from + 1)
    else ScanChars(text, cls, from + 1)
  }

  /** Each found span is one accepted character, at its own offset, and the
      spans are strictly left to right. */
  lemma {:induction false} ScanCharsSound(text: string, cls: CharClass, from: nat)
    requires from <= |text|
    ensures forall i :: 0 <= i < |ScanChars(text, cls, from)| ==>
      var s := ScanChars(text, cls, from)[i];
      from <= s.offset < |text| && Accepts(cls, text[s.offset]) && s.lexeme == [text[s.offset]]
    ensures forall i, j :: 0 <= i < j < |ScanChars(text, cls, from)| ==>
      ScanChars(text, cls, from)[i].offset < ScanChars(text, cls, from)[j].offset
    decreases |text| - from
  {
    if from < |text| {
      ScanCharsSound(text, cls, from + 1);
    }
  }

  /** Every accepted character of `text[from..]` is found. */
  lemma {:induction false} ScanCharsComplete(text: string, cls: CharClass, from: nat, p: nat)
    requires from <= p < |text| && Accepts(cls, text[p])
    ensures exists i :: 0 <= i < |ScanChars(text, cls, from)| && ScanChars(text, cls, from)[i] == Span([text[p]], p)
    decreases p - from
  {
    var r := ScanChars(text, cls, from);
    if p == from {
      assert r[0] == Span([text[p]], p);
    } else {
      ScanCharsComplete(text, cls, from + 1, p);
      var rest := ScanChars(text, cls, from + 1);
      var k :| 0 <= k < |rest| && rest[k] == Span([text[p]], p);
      if Accepts(cls, text[from]) {
        assert r[k + 1] == rest[k];
      } else {
        assert r[k] == rest[k];
      }
    }
  }
}
