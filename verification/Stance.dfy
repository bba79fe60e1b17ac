/** Clause bounds, quotation context and the resolution of one candidate's stance. */
module Stance {
  import opened Wrappers
  import opened Candidates

  const CLAUSE_DELIMITERS: set<char> := {',', '.', '!', '?', ';', '\n'}

  const TRANSITIONS: seq<string> :=
    ["\U{4f46}\U{662f}", "\U{4e0d}\U{8fc7}", "\U{4f46}", "\U{7136}\U{540e}", "\U{968f}\U{540e}"]

  /******* Clause bounds *******/

  predicate DelimiterAt(value: string, k: nat) {
    k < |value| && value[k] in CLAUSE_DELIMITERS
  }

  ghost predicate TransitionAt(value: string, t: string, k: nat) {
    t in TRANSITIONS && Occurs(value, t, k)
  }

  /** Where a clause can begin or end: at the ends of the text, and on both sides of every delimiter
      and of every transition word. */
  ghost predicate Boundary(value: string, b: nat) {
    || b == 0 || b == |value|
    || DelimiterAt(value, b) || (b > 0 && DelimiterAt(value, b - 1))
    || (exists t :: TransitionAt(value, t, b))
    || (exists t :: b >= |t| && TransitionAt(value, t, b - |t|))
  }

  /** No proper prefix of the word is also a suffix of it, so its occurrences cannot overlap. */
  predicate Unbordered(t: string) {
    t != "" && forall n :: 0 < n < |t| ==> t[..n] != t[|t| - n..]
  }

  lemma OverlapIsBorder(value: string, t: string, i: nat, j: nat)
    requires Occurs(value, t, i) && Occurs(value, t, j) && i < j < i + |t|
    ensures !Unbordered(t)
  {
    var n := i + |t| - j;
    var shared := value[j..i + |t|];
    assert shared == value[j..j + |t|][..n] == t[..n];
    assert shared == value[i..i + |t|][j - i..] == t[|t| - n..];
  }

  lemma TransitionsUnbordered()
    ensures forall t :: t in TRANSITIONS ==> Unbordered(t)
  {
    forall t | t in TRANSITIONS ensures Unbordered(t) {
      if |t| == 2 {
        assert t[..1] == [t[0]] && t[1..] == [t[1]];
      }
    }
  }

  /** One side of an occurrence. */
  ghost predicate Side(value: string, t: string, b: nat) {
    Occurs(value, t, b) || exists k: nat :: k + |t| == b && Occurs(value, t, k)
  }

  /** What the scan for one word has added when it stands at `cursor`: both ends of every
      occurrence that starts before it. */
  ghost predicate Scanned(value: string, t: string, cursor: nat, before: set<nat>, now: set<nat>) {
    && before <= now
    && (forall i: nat :: i < cursor && Occurs(value, t, i) ==> i in now && i + |t| in now)
    && (forall b :: b in now ==> b in before || Side(value, t, b))
    && (forall i: nat :: i < cursor && Occurs(value, t, i) ==> i + |t| <= cursor)
  }

  lemma NextScanned(value: string, t: string, cursor: nat, before: set<nat>, now: set<nat>, i: nat)
    requires Unbordered(t) && Scanned(value, t, cursor, before, now)
    requires Find(value, t, cursor) == Some(i)
    ensures Scanned(value, t, i + |t|, before, now + {i, i + |t|}) && i + |t| <= |value|
  {
    var now' := now + {i, i + |t|};
    forall k: nat | k < i + |t| && Occurs(value, t, k)
      ensures k in now' && k + |t| in now' && k + |t| <= i + |t|
    {
      if k > i {
        OverlapIsBorder(value, t, i, k);
      }
    }
    assert Side(value, t, i) && Side(value, t, i + |t|);
  }

  method ScanTransition(value: string, t: string, before: set<nat>) returns (now: set<nat>)
    requires Unbordered(t)
    ensures Scanned(value, t, |value| + 1, before, now)
  {
    hide Unbordered, Scanned, Occurs, Side;
    now := before;
    var cursor := 0;
    ScanStarts(value, t, before);
    var index := Find(value, t, cursor);
    while index.Some?
      invariant Scanned(value, t, cursor, before, now)
      invariant index == Find(value, t, cursor) && cursor <= |value|
      decreases |value| - cursor
    {
      NextScanned(value, t, cursor, before, now, index.value);
      now := now + {index.value, index.value + |t|};
      cursor := index.value + |t|;
      index := Find(value, t, cursor);
      Nonempty(t);
    }
    ScanEnds(value, t, cursor, before, now);
  }

  lemma Nonempty(t: string)
    requires Unbordered(t)
    ensures |t| > 0
  {}

  lemma ScanStarts(value: string, t: string, before: set<nat>)
    ensures Scanned(value, t, 0, before, before)
  {}

  lemma ScanEnds(value: string, t: string, cursor: nat, before: set<nat>, now: set<nat>)
    requires Scanned(value, t, cursor, before, now) && Find(value, t, cursor).None?
    ensures Scanned(value, t, |value| + 1, before, now)
  {}

  lemma {:induction false} LargestUpTo(s: set<nat>, bound: nat) returns (m: nat)
    requires 0 in s
    ensures m in s && m <= bound && forall b :: b in s && b <= bound ==> b <= m
    decreases bound
  {
    if bound in s {
      m := bound;
    } else {
      m := LargestUpTo(s, bound - 1);
    }
  }

  lemma {:induction false} SmallestFrom(s: set<nat>, bound: nat, top: nat) returns (m: nat)
    requires top in s && bound <= top
    ensures m in s && m >= bound && forall b :: b in s && b >= bound ==> b >= m
    decreases top - bound
  {
    if bound in s {
      m := bound;
    } else {
      m := SmallestFrom(s, bound + 1, top);
    }
  }

  /** The clause around a span: the nearest boundary at or before its start, and the nearest one
      at or after its end. */
  ghost predicate Tightest(value: string, spanStart: nat, spanEnd: nat, start: nat, end: nat) {
    && Boundary(value, start) && start <= spanStart
    && Boundary(value, end) && spanEnd <= end <= |value|
    && (forall b: nat :: start < b <= spanStart ==> !Boundary(value, b))
    && (forall b: nat :: spanEnd <= b < end ==> !Boundary(value, b))
  }

  /** The first loop: both sides of every delimiter. */
  method DelimiterBoundaries(value: string) returns (boundaries: set<nat>)
    ensures {0, |value|} <= boundaries
    ensures forall k: nat :: DelimiterAt(value, k) ==> k in boundaries && k + 1 in boundaries
    ensures forall b :: b in boundaries ==> Boundary(value, b)
  {
    boundaries := {0, |value|};
    for index := 0 to |value|
      invariant {0, |value|} <= boundaries
      invariant forall k: nat :: k < index && DelimiterAt(value, k) ==>
                  k in boundaries && k + 1 in boundaries
      invariant forall b :: b in boundaries ==>
                  || b == 0 || b == |value| || DelimiterAt(value, b)
                  || (b > 0 && DelimiterAt(value, b - 1))
    {
      if value[index] in CLAUSE_DELIMITERS {
        boundaries := boundaries + {index};
        boundaries := boundaries + {index + 1};
      }
    }
  }

  lemma ScannedBoundaries(value: string, t: string, before: set<nat>, now: set<nat>)
    requires t in TRANSITIONS && Scanned(value, t, |value| + 1, before, now)
    requires forall b :: b in before ==> Boundary(value, b)
    ensures forall b :: b in now ==> Boundary(value, b)
    ensures forall k: nat :: Occurs(value, t, k) ==> k in now && k + |t| in now
  {
    forall b | b in now ensures Boundary(value, b) {
      if b !in before {
        assert Side(value, t, b);
        if Occurs(value, t, b) {
          assert TransitionAt(value, t, b);
        } else {
          var k: nat :| k + |t| == b && Occurs(value, t, k);
          assert TransitionAt(value, t, k) && k == b - |t|;
        }
      }
    }
  }

  method Boundaries(value: string) returns (boundaries: set<nat>)
    ensures forall b: nat :: b in boundaries <==> Boundary(value, b)
  {
    hide Scanned, Boundary, Unbordered, Occurs;
    boundaries := DelimiterBoundaries(value);
    ghost var delimited := boundaries;
    TransitionsUnbordered();
    for n := 0 to |TRANSITIONS|
      invariant delimited <= boundaries
      invariant forall m, k: nat | 0 <= m < n && Occurs(value, TRANSITIONS[m], k) ::
                  k in boundaries && k + |TRANSITIONS[m]| in boundaries
      invariant forall b :: b in boundaries ==> Boundary(value, b)
    {
      assert TRANSITIONS[n] in TRANSITIONS;
      ghost var before := boundaries;
      boundaries := ScanTransition(value, TRANSITIONS[n], boundaries);
      Kept(value, TRANSITIONS[n], before, boundaries);
      ScannedBoundaries(value, TRANSITIONS[n], before, boundaries);
    }
    Complete(value, boundaries);
  }

  lemma Kept(value: string, t: string, before: set<nat>, now: set<nat>)
    requires Scanned(value, t, |value| + 1, before, now)
    ensures before <= now
  {}

  lemma Complete(value: string, boundaries: set<nat>)
    requires {0, |value|} <= boundaries
    requires forall k: nat :: DelimiterAt(value, k) ==> k in boundaries && k + 1 in boundaries
    requires forall m, k: nat | 0 <= m < |TRANSITIONS| && Occurs(value, TRANSITIONS[m], k) ::
               k in boundaries && k + |TRANSITIONS[m]| in boundaries
    ensures forall b: nat :: Boundary(value, b) ==> b in boundaries
  {
    hide Occurs;
    forall b: nat | Boundary(value, b) ensures b in boundaries {
      if t :| TransitionAt(value, t, b) {
        var m :| 0 <= m < |TRANSITIONS| && TRANSITIONS[m] == t;
        assert Occurs(value, TRANSITIONS[m], b);
      } else if t :| b >= |t| && TransitionAt(value, t, b - |t|) {
        var m :| 0 <= m < |TRANSITIONS| && TRANSITIONS[m] == t;
        assert Occurs(value, TRANSITIONS[m], b - |t|);
      } else if b > 0 && DelimiterAt(value, b - 1) {
        assert (b - 1) + 1 == b;
      }
    }
  }

  lemma BoundaryInRange(value: string, b: nat)
    requires Boundary(value, b)
    ensures b <= |value|
  {}

  /** No result is the `ValueError` of a span that ends behind the text: no boundary follows it. */
  method ClauseBounds(value: string, spanStart: nat, spanEnd: nat)
    returns (bounds: Option<(nat, nat)>)
    ensures bounds.Some? <==> spanEnd <= |value|
    ensures bounds.Some? ==>
              Tightest(value, spanStart, spanEnd, bounds.value.0, bounds.value.1)
  {
    var boundaries := Boundaries(value);
    assert 0 in boundaries && |value| in boundaries by {
      assert Boundary(value, 0) && Boundary(value, |value|);
    }
    forall b | b in boundaries ensures b <= |value| { BoundaryInRange(value, b); }
    hide Boundary;
    if !exists b :: b in boundaries && b >= spanEnd {
      return None;
    }
    ghost var first := LargestUpTo(boundaries, spanStart);
    ghost var last := SmallestFrom(boundaries, spanEnd, |value|);
    var start :| start in boundaries && start <= spanStart
                 && forall b :: b in boundaries && b <= spanStart ==> b <= start;
    var end :| end in boundaries && end >= spanEnd
               && forall b :: b in boundaries && b >= spanEnd ==> b >= end;
    return Some((start, end));
  }

  /** Between the span and the bounds of its clause there is no delimiter and no whole transition
      word. */
  lemma NothingBetween(value: string, spanStart: nat, spanEnd: nat, start: nat, end: nat, k: nat)
    requires Tightest(value, spanStart, spanEnd, start, end)
    ensures start <= k < spanStart || spanEnd <= k < end ==> !DelimiterAt(value, k)
    ensures forall t | TransitionAt(value, t, k) ::
              && !(start <= k && k + |t| <= spanStart)
              && !(spanEnd <= k && k + |t| <= end)
  {
    TransitionsUnbordered();
    if DelimiterAt(value, k) {
      assert Boundary(value, k) && Boundary(value, k + 1);
    }
    forall t | TransitionAt(value, t, k)
      ensures !(start <= k && k + |t| <= spanStart) && !(spanEnd <= k && k + |t| <= end)
    {
      assert Boundary(value, k);
      assert k + |t| >= |t| && TransitionAt(value, t, (k + |t|) - |t|);
      assert Boundary(value, k + |t|);
    }
  }
}
