/** Literal search for risk expressions, and the candidates a rule catalogue finds in a text. */
module Candidates {
  import opened Wrappers
  import opened Normalization

  datatype Matcher = CompactLiteral | NormalizedLiteral | OtherMatcher(name: string)

  datatype Detector = Detector(pattern: string, matcher: Matcher)

  datatype Rule = Rule(
    ruleId: string, enabled: bool, detectors: seq<Detector>, category: string, action: string,
    severity: string, priority: int, statusHint: string, reason: string)

  datatype Span = Span(start: nat, end: nat)

  /** The identifier is the hash of these five values and the catalogue version; hashing is taken
      to be injective. */
  datatype CandidateId = CandidateId(
    catalogVersion: string, ruleId: string, action: string, text: string, span: Span)

  datatype Candidate = Candidate(
    id: CandidateId, rule: Rule, span: Span, evidence: string)

  /******* Occurrences *******/

  predicate Occurs(haystack: string, needle: string, i: nat) {
    i + |needle| <= |haystack| && haystack[i..i + |needle|] == needle
  }

  /** `haystack.find(needle, cursor)`. */
  function Find(haystack: string, needle: string, cursor: nat): (r: Option<nat>)
    ensures r.Some? ==> cursor <= r.value && Occurs(haystack, needle, r.value)
    ensures r.Some? ==> forall i :: cursor <= i < r.value ==> !Occurs(haystack, needle, i)
    ensures r.None? ==> forall i :: cursor <= i ==> !Occurs(haystack, needle, i)
    decreases |haystack| - cursor
  {
    if cursor + |needle| > |haystack| then None
    else if Occurs(haystack, needle, cursor) then Some(cursor)
    else Find(haystack, needle, cursor + 1)
  }

  function Haystack(text: NormalizedText, matcher: Matcher): string {
    if matcher == CompactLiteral then text.compact else text.normalized
  }

  /** Where a hit lies in the normalized text; absent when it runs out of the compact map. */
  function SpanOf(text: NormalizedText, needle: string, matcher: Matcher, i: nat): Option<Span>
    requires needle != ""
  {
    if matcher != CompactLiteral then Some(Span(i, i + |needle|))
    else if i + |needle| > |text.compactToNormalized| then None
    else Some(Span(text.compactToNormalized[i], text.compactToNormalized[i + |needle| - 1] + 1))
  }

  predicate Searchable(needle: string, matcher: Matcher) {
    needle != "" && !matcher.OtherMatcher?
  }

  ghost predicate Increasing(hits: seq<nat>) {
    forall i, j | 0 <= i < j < |hits| :: hits[i] < hits[j]
  }

  /** The hits are all occurrences, overlapping ones included, in increasing order. */
  ghost predicate AllHits(haystack: string, needle: string, hits: seq<nat>) {
    Increasing(hits) && forall i: nat :: i in hits <==> Occurs(haystack, needle, i)
  }

  ghost predicate SpansOf(text: NormalizedText, needle: string, matcher: Matcher, hits: seq<nat>,
                          spans: seq<Span>)
    requires needle != ""
  {
    && |spans| == |hits|
    && forall k :: 0 <= k < |hits| ==> SpanOf(text, needle, matcher, hits[k]) == Some(spans[k])
  }

  ghost predicate HitsBelow(haystack: string, needle: string, hits: seq<nat>, cursor: nat) {
    && Increasing(hits)
    && (forall i :: 0 <= i < |hits| ==> hits[i] < cursor)
    && (forall i: nat :: i in hits <==> i < cursor && Occurs(haystack, needle, i))
  }

  lemma NoHits(haystack: string, needle: string)
    ensures HitsBelow(haystack, needle, [], 0)
  {}

  lemma NextHit(haystack: string, needle: string, hits: seq<nat>, cursor: nat, i: nat)
    requires HitsBelow(haystack, needle, hits, cursor) && Find(haystack, needle, cursor) == Some(i)
    ensures HitsBelow(haystack, needle, hits + [i], i + 1) && i < |haystack| + 1
  {}

  lemma LastHit(haystack: string, needle: string, hits: seq<nat>, cursor: nat)
    requires HitsBelow(haystack, needle, hits, cursor) && Find(haystack, needle, cursor).None?
    ensures AllHits(haystack, needle, hits)
  {}

  lemma SpanIs(text: NormalizedText, needle: string, matcher: Matcher, i: nat)
    requires needle != ""
    ensures
      SpanOf(text, needle, matcher, i)
      == if matcher != CompactLiteral then Some(Span(i, i + |needle|))
         else if i + |needle| > |text.compactToNormalized| then None
         else Some(Span(text.compactToNormalized[i],
                        text.compactToNormalized[i + |needle| - 1] + 1))
  {}

  /** The search loop.  No result stands for the `IndexError` of a hit beyond the compact map. */
  method Occurrences(text: NormalizedText, needle: string, matcher: Matcher)
    returns (found: Option<seq<Span>>, ghost hits: seq<nat>)
    ensures !Searchable(needle, matcher) ==> found == Some([])
    ensures Searchable(needle, matcher) && found.Some? ==>
              && AllHits(Haystack(text, matcher), needle, hits)
              && SpansOf(text, needle, matcher, hits, found.value)
    ensures Searchable(needle, matcher) && found.None? ==>
              exists i: nat :: Occurs(Haystack(text, matcher), needle, i)
                            && SpanOf(text, needle, matcher, i).None?
  {
    hide HitsBelow, AllHits, Occurs, SpanOf;
    hits := [];
    var haystack := Haystack(text, matcher);
    if matcher.OtherMatcher? || needle == "" {
      return Some([]), hits;
    }
    var spans: seq<Span> := [];
    var cursor := 0;
    var index := Find(haystack, needle, cursor);
    NoHits(haystack, needle);
    while index.Some?
      invariant index == Find(haystack, needle, cursor)
      invariant cursor <= |haystack| + 1
      invariant HitsBelow(haystack, needle, hits, cursor)
      invariant SpansOf(text, needle, matcher, hits, spans)
      decreases |haystack| + 1 - cursor
    {
      var i := index.value;
      SpanIs(text, needle, matcher, i);
      if matcher == CompactLiteral {
        if i + |needle| > |text.compactToNormalized| {
          return None, hits;
        }
        var start := text.compactToNormalized[i];
        var end := text.compactToNormalized[i + |needle| - 1] + 1;
        spans := spans + [Span(start, end)];
      } else {
        spans := spans + [Span(i, i + |needle|)];
      }
      NextHit(haystack, needle, hits, cursor, i);
      hits := hits + [i];
      cursor := i + 1;
      index := Find(haystack, needle, cursor);
    }
    LastHit(haystack, needle, hits, cursor);
    return Some(spans), hits;
  }

  /******* Compact hits *******/

  function WithoutSeparators(s: string): string {
    if s == "" then ""
    else
      var front := WithoutSeparators(s[..|s| - 1]);
      if Separator(s[|s| - 1]) then front else front + [s[|s| - 1]]
  }

  /** The compact text and its map belong to the normalized text, as normalization leaves them. */
  ghost predicate Compacted(text: NormalizedText) {
    var m := text.compactToNormalized;
    && |m| == |text.compact|
    && (forall i :: 0 <= i < |m| ==>
          m[i] < |text.normalized| && text.compact[i] == text.normalized[m[i]])
    && (forall i, j | 0 <= i < j < |m| :: m[i] < m[j])
    && (forall k :: 0 <= k < |text.normalized| ==>
          (k in m <==> !Separator(text.normalized[k])))
  }

  lemma NormalizedIsCompacted(u: Unicode, value: string)
    requires OneToOne(u, Truncated(value))
    ensures Compacted(Normalized(u, value))
  {
    hide Normalized, OneToOne;
    CompactExactly(u, value);
  }

  /** Separators only: nothing is left of them. */
  lemma {:induction false} OnlySeparators(s: string, from: nat, until: nat)
    requires from <= until <= |s|
    requires forall k :: from <= k < until ==> Separator(s[k])
    ensures WithoutSeparators(s[..until]) == WithoutSeparators(s[..from])
    decreases until
  {
    if from < until {
      OnlySeparators(s, from, until - 1);
      assert s[..until][..until - 1] == s[..until - 1];
    }
  }

  /** Between two neighbouring compact characters there are only separators. */
  lemma OnlySeparatorsBetween(text: NormalizedText, i: nat)
    requires Compacted(text) && i < |text.compact|
    ensures
      var m := text.compactToNormalized;
      var from := if i == 0 then 0 else m[i - 1] + 1;
      from <= m[i] && forall k :: from <= k < m[i] ==> Separator(text.normalized[k])
  {
    var m := text.compactToNormalized;
    var from := if i == 0 then 0 else m[i - 1] + 1;
    forall k | from <= k < m[i] ensures Separator(text.normalized[k]) {
      forall j | 0 <= j < |m| ensures m[j] != k {
        if j < i - 1 {
          assert m[j] < m[i - 1];
        } else if j > i {
          assert m[i] < m[j];
        }
      }
      assert k !in m;
    }
  }

  lemma NothingWithout(s: string)
    requires s == ""
    ensures WithoutSeparators(s) == ""
  {}

  lemma CompactStep(text: NormalizedText, i: nat)
    requires Compacted(text) && i < |text.compact|
    ensures
      var k := text.compactToNormalized[i];
      WithoutSeparators(text.normalized[..k]) == text.compact[..i] ==>
        WithoutSeparators(text.normalized[..k + 1]) == text.compact[..i + 1]
  {
    var k := text.compactToNormalized[i];
    assert k in text.compactToNormalized;
    assert text.normalized[..k + 1][..k] == text.normalized[..k];
    assert text.compact[..i + 1] == text.compact[..i] + [text.compact[i]];
  }

  lemma {:induction false} CompactPrefix(text: NormalizedText, i: nat)
    requires Compacted(text) && i <= |text.compact|
    ensures i > 0 ==>
              WithoutSeparators(text.normalized[..text.compactToNormalized[i - 1] + 1])
              == text.compact[..i]
    ensures i < |text.compact| ==>
              WithoutSeparators(text.normalized[..text.compactToNormalized[i]])
              == text.compact[..i]
    decreases i
  {
    hide WithoutSeparators, Separator;
    NothingWithout(text.normalized[..0]);
    var m := text.compactToNormalized;
    if i > 0 {
      CompactPrefix(text, i - 1);
      CompactStep(text, i - 1);
    }
    if i < |text.compact| {
      OnlySeparatorsBetween(text, i);
      OnlySeparators(text.normalized, if i == 0 then 0 else m[i - 1] + 1, m[i]);
    }
  }

  lemma {:induction false} SplitWithout(a: string, b: string)
    ensures WithoutSeparators(a + b) == WithoutSeparators(a) + WithoutSeparators(b)
    decreases |b|
  {
    if b == "" {
      assert a + b == a;
    } else {
      SplitWithout(a, b[..|b| - 1]);
      assert (a + b)[..|a + b| - 1] == a + b[..|b| - 1];
    }
  }

  lemma CompactHitEnds(text: NormalizedText, needle: string, i: nat)
    requires Compacted(text) && needle != "" && Occurs(text.compact, needle, i)
    ensures
      var span := SpanOf(text, needle, CompactLiteral, i);
      && span.Some? && span.value.start < span.value.end <= |text.normalized|
      && text.normalized[span.value.start] == needle[0]
      && text.normalized[span.value.end - 1] == needle[|needle| - 1]
  {
    var m := text.compactToNormalized;
    if |needle| > 1 { assert m[i] < m[i + |needle| - 1]; }
    assert text.compact[i] == needle[0];
    assert text.compact[i + |needle| - 1] == needle[|needle| - 1];
  }

  /** A compact hit maps to a span of the normalized text that begins and ends on characters of
      the needle and, without its separators, is the needle. */
  lemma CompactHitSpells(text: NormalizedText, needle: string, i: nat)
    requires Compacted(text) && needle != "" && Occurs(text.compact, needle, i)
    ensures
      var span := SpanOf(text, needle, CompactLiteral, i);
      && span.Some? && span.value.start < span.value.end <= |text.normalized|
      && WithoutSeparators(text.normalized[span.value.start..span.value.end]) == needle
      && text.normalized[span.value.start] == needle[0]
      && text.normalized[span.value.end - 1] == needle[|needle| - 1]
  {
    hide Compacted, WithoutSeparators;
    CompactHitEnds(text, needle, i);
    CompactPrefix(text, i);
    CompactPrefix(text, i + |needle|);
    var span := SpanOf(text, needle, CompactLiteral, i).value;
    var before, inside := text.normalized[..span.start], text.normalized[span.start..span.end];
    SplitWithout(before, inside);
    assert before + inside == text.normalized[..span.end];
    assert text.compact[..i + |needle|] == text.compact[..i] + needle;
  }
}
