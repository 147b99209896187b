/**
 What the PII detector does with the spans it is given: deduplicate, score and mask.  The spans come
 from a recogniser and are arbitrary.
 */
module PiiSpans {
  import opened Sets

  datatype Entity = Entity(kind: string, start: int, end: int)

  // ---------------------------------------------------------------- sorting and deduplication

  /** By start, longer first. */
  predicate Before(a: Entity, b: Entity) {
    a.start < b.start || (a.start == b.start && a.end >= b.end)
  }

  predicate Ordered(s: seq<Entity>) {
    forall i, j :: 0 <= i < j < |s| ==> Before(s[i], s[j])
  }

  function Insert(s: seq<Entity>, e: Entity): (r: seq<Entity>)
    requires Ordered(s)
    ensures Ordered(r) && forall x :: x in r <==> x == e || x in s
  {
    if |s| == 0 || Before(s[|s| - 1], e) then s + [e]
    else
      var rest, last := s[..|s| - 1], s[|s| - 1];
      assert s == rest + [last];
      var r := Insert(rest, e);
      assert forall i :: 0 <= i < |r| ==> r[i] in r;
      r + [last]
  }

  /** `sorted(entities, key=...)`, which is stable. */
  function Sorted(s: seq<Entity>): (r: seq<Entity>)
    ensures Ordered(r) && forall x :: x in r <==> x in s
  {
    if |s| == 0 then []
    else
      assert s == s[..|s| - 1] + [s[|s| - 1]];
      Insert(Sorted(s[..|s| - 1]), s[|s| - 1])
  }

  lemma {:induction false} InsertAdds(s: seq<Entity>, e: Entity)
    requires Ordered(s)
    ensures multiset(Insert(s, e)) == multiset(s) + multiset{e}
  {
    hide Before, Ordered;
    if |s| > 0 && !Before(s[|s| - 1], e) {
      assert s == s[..|s| - 1] + [s[|s| - 1]];
      assert Ordered(s[..|s| - 1]) by { PrefixIsOrdered(s); }
      InsertAdds(s[..|s| - 1], e);
    }
  }

  lemma PrefixIsOrdered(s: seq<Entity>)
    requires Ordered(s) && |s| > 0
    ensures Ordered(s[..|s| - 1])
  {
  }

  /** Sorting loses and adds nothing. */
  lemma {:induction false} SortedIsPermutation(s: seq<Entity>)
    ensures multiset(Sorted(s)) == multiset(s)
  {
    if |s| > 0 {
      assert s == s[..|s| - 1] + [s[|s| - 1]];
      SortedIsPermutation(s[..|s| - 1]);
      InsertAdds(Sorted(s[..|s| - 1]), s[|s| - 1]);
    }
  }

  predicate Inside(a: Entity, b: Entity) {
    b.start <= a.start && a.end <= b.end
  }

  predicate InsideAny(e: Entity, kept: seq<Entity>) {
    exists i :: 0 <= i < |kept| && Inside(e, kept[i])
  }

  function Keep(ordered: seq<Entity>): seq<Entity> {
    if |ordered| == 0 then []
    else
      var kept := Keep(ordered[..|ordered| - 1]);
      var e := ordered[|ordered| - 1];
      if InsideAny(e, kept) then kept else kept + [e]
  }

  /** Starts and ends strictly increase. */
  ghost predicate Increasing(s: seq<Entity>) {
    forall i, j :: 0 <= i < j < |s| ==> s[i].start < s[j].start && s[i].end < s[j].end
  }

  lemma {:induction false} KeptIncreases(ordered: seq<Entity>)
    requires Ordered(ordered)
    ensures Increasing(Keep(ordered))
    ensures forall e :: e in Keep(ordered) ==> e in ordered
    ensures forall e :: e in ordered ==> InsideAny(e, Keep(ordered))
  {
    if |ordered| > 0 {
      var n := |ordered| - 1;
      var kept, e := Keep(ordered[..n]), ordered[n];
      assert ordered == ordered[..n] + [e];
      KeptIncreases(ordered[..n]);
      forall i | 0 <= i < |kept| ensures Before(kept[i], e) {
        assert kept[i] in ordered[..n];
        var j :| 0 <= j < n && ordered[j] == kept[i];
      }
      if !InsideAny(e, kept) {
        forall x | x in ordered ensures InsideAny(x, kept + [e]) {
          if x in ordered[..n] {
            var i :| 0 <= i < |kept| && Inside(x, kept[i]);
            assert (kept + [e])[i] == kept[i];
          } else {
            assert (kept + [e])[|kept|] == e;
            if x != e { assert false; }
            InsideSelf(e, kept);
          }
        }
      }
    }
  }

  lemma InsideSelf(e: Entity, kept: seq<Entity>)
    ensures InsideAny(e, kept + [e])
  {
    assert (kept + [e])[|kept|] == e;
  }

  function Deduped(entities: seq<Entity>): seq<Entity> {
    Keep(Sorted(entities))
  }

  /** `_dedupe` */
  method Dedupe(entities: seq<Entity>) returns (kept: seq<Entity>)
    ensures kept == Deduped(entities)
    ensures Increasing(kept)
    ensures forall e :: e in kept ==> e in entities
    ensures forall e :: e in entities ==> InsideAny(e, kept)
  {
    var ordered := Sorted(entities);
    kept := [];
    for i := 0 to |ordered|
      invariant kept == Keep(ordered[..i])
    {
      assert ordered[..i + 1][..i] == ordered[..i];
      if exists j :: 0 <= j < |kept| && Inside(ordered[i], kept[j]) {
        continue;
      }
      kept := kept + [ordered[i]];
    }
    assert ordered[..|ordered|] == ordered;
    KeptIncreases(ordered);
  }

  /** The spans of `s` from `start` to `end`, in their order. */
  function Alike(s: seq<Entity>, start: int, end: int): seq<Entity> {
    if |s| == 0 then []
    else
      var e := s[|s| - 1];
      Alike(s[..|s| - 1], start, end) + if e.start == start && e.end == end then [e] else []
  }

  lemma {:induction false} InsertIsStable(s: seq<Entity>, e: Entity, start: int, end: int)
    requires Ordered(s)
    ensures Alike(Insert(s, e), start, end) == Alike(s, start, end) + if e.start == start && e.end == end then [e] else []
  {
    if |s| == 0 || Before(s[|s| - 1], e) {
      assert (s + [e])[..|s|] == s;
    } else {
      var rest, last := s[..|s| - 1], s[|s| - 1];
      InsertIsStable(rest, e, start, end);
      assert (Insert(rest, e) + [last])[..|Insert(rest, e)|] == Insert(rest, e);
    }
  }

  /** Spans of one extent keep the order in which they were reported. */
  lemma {:induction false} SortIsStable(s: seq<Entity>, start: int, end: int)
    ensures Alike(Sorted(s), start, end) == Alike(s, start, end)
  {
    if |s| > 0 {
      SortIsStable(s[..|s| - 1], start, end);
      InsertIsStable(Sorted(s[..|s| - 1]), s[|s| - 1], start, end);
    }
  }

  lemma {:induction false} AlikeHas(s: seq<Entity>, e: Entity)
    ensures e in s ==> Alike(s, e.start, e.end) != []
    ensures Alike(s, e.start, e.end) != [] ==> exists x :: x in s && x.start == e.start && x.end == e.end
  {
    if |s| > 0 {
      var rest := s[..|s| - 1];
      AlikeHas(rest, e);
      assert s == rest + [s[|s| - 1]];
      if Alike(rest, e.start, e.end) != [] {
        var x :| x in rest && x.start == e.start && x.end == e.end;
        assert x in s;
      } else if Alike(s, e.start, e.end) != [] {
        assert s[|s| - 1] in s;
      }
    }
  }

  lemma {:induction false} KeepsFirst(ordered: seq<Entity>, e: Entity)
    requires Ordered(ordered) && e in Keep(ordered)
    ensures Alike(ordered, e.start, e.end) != [] && Alike(ordered, e.start, e.end)[0] == e
  {
    var rest, last := ordered[..|ordered| - 1], ordered[|ordered| - 1];
    assert ordered == rest + [last];
    if e in Keep(rest) {
      KeepsFirst(rest, e);
    } else {
      assert e == last;
      AlikeHas(rest, e);
      NoneAlike(rest, e);
    }
  }

  lemma NoneAlike(ordered: seq<Entity>, e: Entity)
    requires Ordered(ordered) && !InsideAny(e, Keep(ordered))
    ensures forall x :: x in ordered ==> x.start != e.start || x.end != e.end
  {
    hide Keep;
    KeptIncreases(ordered);
    forall x | x in ordered ensures x.start == e.start && x.end == e.end ==> InsideAny(e, Keep(ordered)) {
      LikeInside(x, e, Keep(ordered));
    }
  }

  lemma LikeInside(x: Entity, e: Entity, kept: seq<Entity>)
    ensures InsideAny(x, kept) && x.start == e.start && x.end == e.end ==> InsideAny(e, kept)
  {
    assert x.start == e.start && x.end == e.end ==> forall i :: 0 <= i < |kept| ==> (Inside(x, kept[i]) <==> Inside(e, kept[i]));
  }

  /** Of several spans with one extent the first reported is the one kept, whatever its kind. */
  lemma KeepsFirstReported(entities: seq<Entity>, e: Entity)
    requires e in Deduped(entities)
    ensures Alike(entities, e.start, e.end) != [] && Alike(entities, e.start, e.end)[0] == e
  {
    KeepsFirst(Sorted(entities), e);
    SortIsStable(entities, e.start, e.end);
  }

  // ---------------------------------------------------------------- nested or disjoint spans

  predicate InRange(e: Entity, n: nat) {
    0 <= e.start < e.end <= n
  }

  predicate Disjoint(a: Entity, b: Entity) {
    a.end <= b.start || b.end <= a.start
  }

  ghost predicate Laminar(s: seq<Entity>) {
    forall a, b :: a in s && b in s ==> Inside(a, b) || Inside(b, a) || Disjoint(a, b)
  }

  /** Every span ends before the next one starts. */
  ghost predicate Separate(s: seq<Entity>) {
    forall i, j :: 0 <= i < j < |s| ==> s[i].end <= s[j].start
  }

  /** If any two spans are nested or disjoint, the kept ones are disjoint. */
  lemma LaminarIsSeparate(entities: seq<Entity>, n: nat)
    requires Laminar(entities) && forall e :: e in entities ==> InRange(e, n)
    ensures Separate(Deduped(entities)) && forall e :: e in Deduped(entities) ==> InRange(e, n)
  {
    KeptIncreases(Sorted(entities));
    var kept := Deduped(entities);
    forall i, j | 0 <= i < j < |kept| ensures kept[i].end <= kept[j].start {
      assert kept[i] in Sorted(entities) && kept[j] in Sorted(entities);
      assert Inside(kept[i], kept[j]) || Inside(kept[j], kept[i]) || Disjoint(kept[i], kept[j]);
    }
  }

  // ---------------------------------------------------------------- the score

  function PiiChars(s: seq<Entity>): int {
    if |s| == 0 then 0 else PiiChars(s[..|s| - 1]) + s[|s| - 1].end - s[|s| - 1].start
  }

  /** The positions inside some span. */
  function Covered(s: seq<Entity>): set<int> {
    if |s| == 0 then {} else Covered(s[..|s| - 1]) + Positions(s[|s| - 1].start, s[|s| - 1].end)
  }

  function Positions(lo: int, hi: int): (r: set<int>)
    ensures forall x :: x in r <==> lo <= x < hi
    ensures lo <= hi ==> |r| == hi - lo
    decreases hi - lo
  {
    if lo >= hi then {} else Positions(lo, hi - 1) + {hi - 1}
  }

  lemma {:induction false} CoveredIff(s: seq<Entity>, x: int)
    ensures x in Covered(s) <==> exists i :: 0 <= i < |s| && s[i].start <= x < s[i].end
  {
    hide Positions;
    if |s| > 0 {
      CoveredIff(s[..|s| - 1], x);
      assert s == s[..|s| - 1] + [s[|s| - 1]];
    }
  }

  /** What the last of increasing spans adds to the covered positions: the part after the previous end. */
  lemma LastAdds(s: seq<Entity>, n: nat)
    requires |s| > 0 && Increasing(s) && forall e :: e in s ==> InRange(e, n)
    ensures var rest, e := s[..|s| - 1], s[|s| - 1];
            var first := if |rest| > 0 && rest[|rest| - 1].end > e.start then rest[|rest| - 1].end else e.start;
            |Covered(s)| == |Covered(rest)| + e.end - first
  {
    var rest, e := s[..|s| - 1], s[|s| - 1];
    assert e in s;
    var first := if |rest| > 0 && rest[|rest| - 1].end > e.start then rest[|rest| - 1].end else e.start;
    var added := Positions(first, e.end);
    forall x ensures x in Covered(s) <==> x in Covered(rest) || x in added {
      CoveredIff(rest, x);
      if x in Positions(e.start, e.end) && x !in added {
        assert rest[|rest| - 1].start <= x < rest[|rest| - 1].end;
      }
    }
    forall x | x in added ensures x !in Covered(rest) {
      CoveredIff(rest, x);
    }
    assert Covered(s) == Covered(rest) + added;
  }

  lemma SeparateStep(rest: seq<Entity>, e: Entity)
    requires Increasing(rest)
    ensures Separate(rest + [e]) <==> Separate(rest) && (|rest| == 0 || rest[|rest| - 1].end <= e.start)
  {
    var s := rest + [e];
    assert forall i :: 0 <= i < |rest| ==> s[i] == rest[i];
    assert s[|rest|] == e;
    if Separate(rest) && |rest| > 0 && rest[|rest| - 1].end <= e.start {
      forall i | 0 <= i < |rest| ensures rest[i].end <= e.start {
        assert i < |rest| - 1 ==> rest[i].end < rest[|rest| - 1].end;
      }
    }
  }

  /** By how much neighbouring spans overlap, in all. */
  function Overlap(s: seq<Entity>): nat {
    if |s| < 2 then 0
    else
      var before, e := s[|s| - 2], s[|s| - 1];
      Overlap(s[..|s| - 1]) + if before.end > e.start then before.end - e.start else 0
  }

  /** The characters that the score counts are the covered positions and, once more, the overlaps. */
  lemma {:induction false} CharsAreCoveredAndOverlap(s: seq<Entity>, n: nat)
    requires Increasing(s) && forall e :: e in s ==> InRange(e, n)
    ensures PiiChars(s) == |Covered(s)| + Overlap(s)
    ensures Overlap(s) == 0 <==> Separate(s)
  {
    hide PiiChars, Covered, Overlap, Separate;
    if |s| > 0 {
      var rest, e := s[..|s| - 1], s[|s| - 1];
      assert s == rest + [e];
      CharsAreCoveredAndOverlap(rest, n);
      LastAdds(s, n);
      SeparateStep(rest, e);
      hide Increasing;
      CharsStep(rest, e);
    } else {
      NothingCounted(s);
    }
  }

  lemma CharsStep(rest: seq<Entity>, e: Entity)
    ensures PiiChars(rest + [e]) == PiiChars(rest) + e.end - e.start
    ensures Overlap(rest + [e]) ==
            Overlap(rest) + if |rest| > 0 && rest[|rest| - 1].end > e.start then rest[|rest| - 1].end - e.start else 0
  {
    assert (rest + [e])[..|rest|] == rest;
  }

  lemma NothingCounted(s: seq<Entity>)
    requires s == []
    ensures PiiChars(s) == 0 && Overlap(s) == 0 && Covered(s) == {} && Separate(s)
  {
  }

  /** So every covered position is counted once exactly when the kept spans are disjoint. */
  lemma CountsOnceIff(s: seq<Entity>, n: nat)
    requires Increasing(s) && forall e :: e in s ==> InRange(e, n)
    ensures PiiChars(s) >= |Covered(s)|
    ensures PiiChars(s) == |Covered(s)| <==> Separate(s)
  {
    hide PiiChars, Covered, Separate, Increasing;
    CharsAreCoveredAndOverlap(s, n);
  }

  lemma {:induction false} CoveredInText(s: seq<Entity>, n: nat)
    requires forall e :: e in s ==> InRange(e, n)
    ensures |Covered(s)| <= n
  {
    forall x | x in Covered(s) ensures x in Positions(0, n) {
      CoveredIff(s, x);
      var i :| 0 <= i < |s| && s[i].start <= x < s[i].end;
      assert s[i] in s;
    }
    SubsetCount(Covered(s), Positions(0, n));
  }

  /** The score of `detect` on text of length `n`. */
  function Score(entities: seq<Entity>, n: nat): real {
    if n == 0 then 0.0 else PiiChars(Deduped(entities)) as real / n as real
  }

  /**
   For arbitrary spans in the text: the score counts the covered positions and the overlaps, and it stays
   within 1 if and only if the overlaps are no longer than the text that no span covers.
   */
  lemma ScoreAtMostOneIff(entities: seq<Entity>, n: nat)
    requires forall e :: e in entities ==> InRange(e, n)
    ensures var kept := Deduped(entities);
            && 0.0 <= Score(entities, n)
            && (n > 0 ==> Score(entities, n) == (|Covered(kept)| + Overlap(kept)) as real / n as real)
            && (Score(entities, n) <= 1.0 <==> Overlap(kept) <= n - |Covered(kept)|)
  {
    hide Covered, Overlap, PiiChars, Increasing;
    var kept := Deduped(entities);
    KeptIncreases(Sorted(entities));
    CharsAreCoveredAndOverlap(kept, n);
    if n > 0 {
      ShareIsAtMostOneIff(PiiChars(kept), n);
    } else {
      NothingKept(entities, kept);
    }
  }

  lemma ShareIsAtMostOneIff(k: nat, n: nat)
    requires n > 0
    ensures 0.0 <= k as real / n as real
    ensures k as real / n as real <= 1.0 <==> k <= n
  {
  }

  lemma NothingKept(entities: seq<Entity>, kept: seq<Entity>)
    requires (forall e :: e in entities ==> InRange(e, 0)) && forall e :: e in kept ==> e in entities
    ensures kept == [] && Overlap(kept) == 0 && Covered(kept) == {}
  {
    if kept != [] {
      HasSpan(kept);
    }
  }

  lemma HasSpan(s: seq<Entity>)
    requires s != []
    ensures exists e :: e in s
  {
    assert s[0] in s;
  }

  /** For nested or disjoint spans the score is the covered share of the text, so it lies in [0, 1]. */
  lemma ScoreIsShare(entities: seq<Entity>, n: nat)
    requires Laminar(entities) && forall e :: e in entities ==> InRange(e, n)
    ensures n > 0 ==> Score(entities, n) == |Covered(Deduped(entities))| as real / n as real
    ensures 0.0 <= Score(entities, n) <= 1.0
  {
    hide Score, Covered, Overlap;
    LaminarIsSeparate(entities, n);
    KeptIncreases(Sorted(entities));
    CharsAreCoveredAndOverlap(Deduped(entities), n);
    CoveredInText(Deduped(entities), n);
    ScoreAtMostOneIff(entities, n);
  }

  function OfTypes(results: seq<Entity>, types: set<string>): (r: seq<Entity>)
    ensures forall e :: e in r <==> e in results && e.kind in types
  {
    if |results| == 0 then []
    else if results[0].kind in types then [results[0]] + OfTypes(results[1..], types)
    else OfTypes(results[1..], types)
  }

  /** Only the spans of known types are looked at, in the order reported. */
  lemma {:induction false} OfTypesAppend(results: seq<Entity>, e: Entity, types: set<string>)
    ensures OfTypes(results + [e], types) == OfTypes(results, types) + if e.kind in types then [e] else []
    ensures OfTypes([], types) == []
  {
    if |results| == 0 {
      assert results + [e] == [e] && [e][1..] == [];
    } else {
      assert (results + [e])[1..] == results[1..] + [e];
      OfTypesAppend(results[1..], e, types);
    }
  }

  lemma DetectedScore(results: seq<Entity>, types: set<string>, n: nat)
    requires forall e :: e in results ==> InRange(e, n)
    ensures var entities := OfTypes(results, types);
            && 0.0 <= Score(entities, n)
            && (Score(entities, n) <= 1.0 <==> Overlap(Deduped(entities)) <= n - |Covered(Deduped(entities))|)
            && (Laminar(results) ==> Score(entities, n) <= 1.0)
  {
    hide Deduped, Score, Covered, Overlap;
    ScoreAtMostOneIff(OfTypes(results, types), n);
    if Laminar(results) {
      ScoreIsShare(OfTypes(results, types), n);
    }
  }

  /** `detect`; `results` is what the recogniser reports, of which only the known types count. */
  method Detect(text: string, enabled: bool, results: seq<Entity>, types: set<string>)
    returns (score: real, entities: seq<Entity>)
    ensures !enabled || text == "" ==> score == 0.0 && entities == []
    ensures enabled && text != "" ==>
              entities == Deduped(OfTypes(results, types)) && score == Score(OfTypes(results, types), |text|)
    ensures (forall e :: e in results ==> InRange(e, |text|)) ==>
              0.0 <= score && (score <= 1.0 <==> Overlap(entities) <= |text| - |Covered(entities)|)
    ensures Laminar(results) && (forall e :: e in results ==> InRange(e, |text|)) ==> score <= 1.0
  {
    hide Deduped, Laminar, Increasing, Covered, Overlap, OfTypes;
    if !enabled || text == "" {
      NothingCounted([]);
      return 0.0, [];
    }
    entities := Dedupe(OfTypes(results, types));
    var piiChars := 0;
    for i := 0 to |entities|
      invariant piiChars == PiiChars(entities[..i])
    {
      assert entities[..i + 1][..i] == entities[..i];
      piiChars := piiChars + entities[i].end - entities[i].start;
    }
    assert entities[..|entities|] == entities;
    score := piiChars as real / |text| as real;
    if forall e :: e in results ==> InRange(e, |text|) {
      DetectedScore(results, types, |text|);
    }
  }

  /** Two spans that overlap in part are both kept: the score of four characters is 1.5, that of ten may be 0.4. */
  lemma OverlapScoresTooHigh()
    ensures var spans := [Entity("A", 0, 3), Entity("B", 1, 4)];
            Deduped(spans) == spans && Overlap(spans) == 2 && Score(spans, 4) == 1.5
    ensures var spans := [Entity("A", 0, 2), Entity("B", 1, 3)];
            Deduped(spans) == spans && Overlap(spans) == 1 && Score(spans, 10) == 0.4
  {
    hide Deduped;
    PairScore(Entity("A", 0, 3), Entity("B", 1, 4), 4);
    PairScore(Entity("A", 0, 2), Entity("B", 1, 3), 10);
  }

  lemma PairScore(a: Entity, b: Entity, n: nat)
    requires InRange(a, n) && InRange(b, n) && a.start < b.start < a.end < b.end
    ensures Deduped([a, b]) == [a, b] && Overlap([a, b]) == a.end - b.start
    ensures Score([a, b], n) == (b.end - a.start + Overlap([a, b])) as real / n as real
  {
    hide Deduped;
    KeepsBoth(a, b);
    assert [a, b][..1] == [a] && [a][..0] == [];
    assert PiiChars([]) == 0;
    assert PiiChars([a]) == a.end - a.start;
  }

  lemma KeepsBoth(a: Entity, b: Entity)
    requires a.start < b.start && a.end < b.end
    ensures Deduped([a, b]) == [a, b]
  {
    hide Sorted, Keep;
    SortedPair(a, b);
    KeptPair(a, b);
  }

  lemma SortedPair(a: Entity, b: Entity)
    requires a.start < b.start
    ensures Sorted([a, b]) == [a, b]
  {
    assert [a, b][..1] == [a] && [a][..0] == [];
    assert Sorted([a]) == Insert([], a) == [] + [a];
    assert Sorted([a, b]) == Insert([a], b) == [a] + [b];
  }

  lemma KeptPair(a: Entity, b: Entity)
    requires a.start < b.start && a.end < b.end
    ensures Keep([a, b]) == [a, b]
  {
    assert [a, b][..1] == [a] && [a][..0] == [];
    assert Keep([a]) == [] + [a];
    assert !InsideAny(b, [a]);
    assert Keep([a, b]) == [a] + [b];
  }

  // ---------------------------------------------------------------- masking

  function Bracketed(e: Entity, labelOf: string -> string): string {
    "[" + labelOf(e.kind) + "]"
  }

  /** A slice bound past the end means the end. */
  function Clamp(i: int, text: string): (r: nat)
    ensures r <= |text|
  {
    if i < 0 then 0 else if i > |text| then |text| else i
  }

  function Replace(text: string, e: Entity, labelOf: string -> string): string {
    text[..Clamp(e.start, text)] + Bracketed(e, labelOf) + text[Clamp(e.end, text)..]
  }

  /** The loop of `mask`: the last span first, so that earlier spans keep their offsets. */
  function MaskFromRight(text: string, spans: seq<Entity>, labelOf: string -> string): string
    decreases |spans|
  {
    if |spans| == 0 then text
    else MaskFromRight(Replace(text, spans[|spans| - 1], labelOf), spans[..|spans| - 1], labelOf)
  }

  /** `mask`; the detected spans have increasing starts, so sorting them by start from the right reverses them. */
  method Mask(text: string, enabled: bool, results: seq<Entity>, types: set<string>, labelOf: string -> string)
    returns (masked: string)
    ensures !enabled || text == "" ==> masked == text
    ensures enabled && text != "" ==> masked == MaskFromRight(text, Deduped(OfTypes(results, types)), labelOf)
    ensures enabled && text != "" && (forall e :: e in results ==> InRange(e, |text|)) ==>
              var spans := Deduped(OfTypes(results, types));
              masked == Spliced(text, spans, 0, labelOf) <==> Separate(spans)
    ensures enabled && text != "" && (forall e :: e in results ==> InRange(e, |text|)) && Laminar(results) ==>
              masked == Spliced(text, Deduped(OfTypes(results, types)), 0, labelOf)
  {
    if !enabled || text == "" {
      return text;
    }
    hide Laminar, MaskFromRight, Spliced, Deduped, Separate, OfTypes, Covered, Overlap, Score;
    var score, spans := Detect(text, enabled, results, types);
    masked := ReplaceAll(text, spans, labelOf);
    if forall e :: e in results ==> InRange(e, |text|) {
      MaskedOfTypes(text, results, types, labelOf);
    }
  }

  /** The loop from the last span to the first. */
  method ReplaceAll(text: string, spans: seq<Entity>, labelOf: string -> string) returns (masked: string)
    ensures masked == MaskFromRight(text, spans, labelOf)
  {
    hide MaskFromRight, Replace;
    masked := text;
    var i := |spans|;
    assert spans[..i] == spans;
    while i > 0
      invariant 0 <= i <= |spans|
      invariant MaskFromRight(masked, spans[..i], labelOf) == MaskFromRight(text, spans, labelOf)
    {
      assert spans[..i] == spans[..i - 1] + [spans[i - 1]];
      MaskLast(masked, spans[..i - 1], spans[i - 1], labelOf);
      i := i - 1;
      masked := Replace(masked, spans[i], labelOf);
    }
    MaskNone(masked, spans[..0], labelOf);
  }

  lemma MaskLast(text: string, spans: seq<Entity>, e: Entity, labelOf: string -> string)
    ensures MaskFromRight(text, spans + [e], labelOf) == MaskFromRight(Replace(text, e, labelOf), spans, labelOf)
  {
    hide Replace;
    assert (spans + [e])[..|spans|] == spans;
  }

  lemma MaskNone(text: string, spans: seq<Entity>, labelOf: string -> string)
    requires spans == []
    ensures MaskFromRight(text, spans, labelOf) == text
  {
  }

  lemma MaskedOfTypes(text: string, results: seq<Entity>, types: set<string>, labelOf: string -> string)
    requires forall e :: e in results ==> InRange(e, |text|)
    ensures var spans := Deduped(OfTypes(results, types));
            && (MaskFromRight(text, spans, labelOf) == Spliced(text, spans, 0, labelOf) <==> Separate(spans))
            && (Laminar(results) ==> Separate(spans))
  {
    hide MaskFromRight, Spliced, Separate, Increasing;
    KeptIncreases(Sorted(OfTypes(results, types)));
    MaskIsSpliceIff(text, Deduped(OfTypes(results, types)), labelOf);
    if Laminar(results) {
      LaminarIsSeparate(OfTypes(results, types), |text|);
    }
  }

  function Later(a: int, b: int): int {
    if a < b then b else a
  }

  /** The reference: from left to right, the text outside all spans, and a whole label for each span. */
  function Spliced(text: string, spans: seq<Entity>, pos: nat, labelOf: string -> string): string
    decreases |spans|
  {
    if |spans| == 0 then text[Clamp(pos, text)..]
    else
      var e := spans[0];
      (if pos <= e.start <= |text| then text[pos..e.start] else "") + Bracketed(e, labelOf)
      + Spliced(text, spans[1..], Later(e.end, 0), labelOf)
  }

  /** Seen from the left: the first span is replaced in the text in which all later ones have been. */
  lemma {:induction false} MaskFirst(text: string, spans: seq<Entity>, labelOf: string -> string)
    requires |spans| > 0
    ensures MaskFromRight(text, spans, labelOf) == Replace(MaskFromRight(text, spans[1..], labelOf), spans[0], labelOf)
    decreases |spans|
  {
    hide Replace;
    var n := |spans| - 1;
    if n > 0 {
      MaskFirst(Replace(text, spans[n], labelOf), spans[..n], labelOf);
      assert spans[..n][1..] == spans[1..][..n - 1];
    } else {
      assert spans[..0] == [] && spans[1..] == [];
    }
  }

  /** Starting later loses the text up to the next span, and no label. */
  lemma SplicedFrom(text: string, spans: seq<Entity>, pos: nat, labelOf: string -> string)
    requires pos <= |text| && (|spans| > 0 ==> 0 <= spans[0].start <= |text|)
    ensures var first := if |spans| > 0 then spans[0].start else |text|;
            var all := Spliced(text, spans, 0, labelOf);
            && first <= |all| && all[..first] == text[..first]
            && Spliced(text, spans, pos, labelOf) == all[if pos < first then pos else first..]
  {
    if |spans| > 0 {
      var first := spans[0].start;
      var tail := SplicedTail(text, spans, labelOf);
      SplicedIs(text, spans, 0, labelOf);
      SplicedIs(text, spans, pos, labelOf);
      hide Spliced, SplicedTail;
      DropFromFront(text[..first], tail, if pos < first then pos else first);
      assert text[..first][if pos < first then pos else first..] == if pos < first then text[pos..first] else "";
    }
  }

  lemma DropFromFront(a: string, b: string, i: nat)
    requires i <= |a|
    ensures (a + b)[i..] == a[i..] + b && (a + b)[..|a|] == a
  {
  }

  /** From the first label on. */
  function SplicedTail(text: string, spans: seq<Entity>, labelOf: string -> string): string
    requires |spans| > 0
  {
    Bracketed(spans[0], labelOf) + Spliced(text, spans[1..], Later(spans[0].end, 0), labelOf)
  }

  lemma SplicedIs(text: string, spans: seq<Entity>, pos: nat, labelOf: string -> string)
    requires |spans| > 0 && 0 <= spans[0].start <= |text|
    ensures Spliced(text, spans, pos, labelOf) ==
            (if pos < spans[0].start then text[pos..spans[0].start] else "") + SplicedTail(text, spans, labelOf)
  {
    hide Bracketed;
    var rest := Spliced(text, spans[1..], Later(spans[0].end, 0), labelOf);
    var gap := if pos <= spans[0].start then text[pos..spans[0].start] else "";
    assert gap + Bracketed(spans[0], labelOf) + rest == gap + (Bracketed(spans[0], labelOf) + rest);
  }

  lemma TailSpans(spans: seq<Entity>, n: nat)
    requires |spans| > 0 && Increasing(spans) && forall e :: e in spans ==> InRange(e, n)
    ensures Increasing(spans[1..]) && (forall e :: e in spans[1..] ==> InRange(e, n)) && InRange(spans[0], n)
    ensures |spans| > 1 ==> InRange(spans[1], n) && spans[0].start < spans[1].start && spans[0].end < spans[1].end
    ensures Separate(spans) <==> Separate(spans[1..]) && (|spans| > 1 ==> spans[0].end <= spans[1].start)
  {
    assert spans[0] in spans && (|spans| > 1 ==> spans[1] in spans);
    assert forall i :: 0 <= i < |spans| - 1 ==> spans[1..][i] == spans[i + 1];
    if Separate(spans[1..]) && (|spans| > 1 ==> spans[0].end <= spans[1].start) {
      forall j | 0 < j < |spans| ensures spans[0].end <= spans[j].start {
        assert j > 1 ==> spans[1].start < spans[j].start;
      }
    }
  }

  /** How long replacing leaves a text. */
  lemma ReplaceLength(text: string, e: Entity, labelOf: string -> string)
    requires 0 <= e.start <= e.end && e.start <= |text|
    ensures |Replace(text, e, labelOf)| == e.start + |Bracketed(e, labelOf)| + |text| - (if e.end < |text| then e.end else |text|)
  {
    hide Bracketed;
  }

  /**
   For increasing spans in the text: the masked text is never longer than the reference, and it is the
   reference, with all outer text and all labels whole, if and only if the spans are disjoint; otherwise it
   is shorter.
   */
  lemma {:induction false} MaskAgainstSplice(text: string, spans: seq<Entity>, labelOf: string -> string)
    requires Increasing(spans) && forall e :: e in spans ==> InRange(e, |text|)
    ensures var masked, reference := MaskFromRight(text, spans, labelOf), Spliced(text, spans, 0, labelOf);
            && (Separate(spans) ==> masked == reference)
            && (!Separate(spans) ==> |masked| < |reference|)
            && (|spans| > 0 ==> spans[0].start + 2 <= |masked|)
    decreases |spans|
  {
    if |spans| > 0 {
      var e, rest := spans[0], spans[1..];
      var first := if |rest| > 0 then rest[0].start else |text|;
      TailSpans(spans, |text|);
      MaskFirst(text, spans, labelOf);
      SplicedFrom(text, rest, e.end, labelOf);
      SplicedIs(text, spans, 0, labelOf);
      if |rest| == 0 {
        NoneLeft(text, rest, labelOf);
      } else {
        MaskAgainstSplice(text, rest, labelOf);
      }
      hide MaskFromRight, Spliced, Separate, Increasing;
      ReplaceFirst(text, e, first, MaskFromRight(text, rest, labelOf), Spliced(text, rest, 0, labelOf), Separate(rest), labelOf);
    }
  }

  /**
   One span `e` more, the later spans starting at `first`: `masked` is the text with those replaced and `all`
   what it is compared with, the same if `same` and longer otherwise.
   */
  lemma ReplaceFirst(text: string, e: Entity, first: nat, masked: string, all: string, same: bool, labelOf: string -> string)
    requires InRange(e, |text|) && e.start < first <= |text| && first <= |all| && all[..first] == text[..first]
    requires (same ==> masked == all) && (!same ==> |masked| < |all|)
    requires first + 2 <= |masked| || (first == |text| == |masked| && same)
    ensures var r := Replace(masked, e, labelOf);
            var reference := text[..e.start] + (Bracketed(e, labelOf) + all[if e.end < first then e.end else first..]);
            && (same && e.end <= first ==> r == reference)
            && (!same || e.end > first ==> |r| < |reference|)
            && e.start + 2 <= |r|
  {
    ReplaceLength(masked, e, labelOf);
    assert |Bracketed(e, labelOf)| >= 2;
    hide Bracketed;
    if same && e.end <= first {
      assert all[..first][..e.start] == text[..first][..e.start];
    }
  }

  lemma NoneLeft(text: string, spans: seq<Entity>, labelOf: string -> string)
    requires spans == []
    ensures MaskFromRight(text, spans, labelOf) == text && Separate(spans) && Spliced(text, spans, 0, labelOf) == text
  {
  }

  /** Masking keeps every label whole and all text outside the spans if and only if the kept spans are disjoint. */
  lemma MaskIsSpliceIff(text: string, spans: seq<Entity>, labelOf: string -> string)
    requires Increasing(spans) && forall e :: e in spans ==> InRange(e, |text|)
    ensures MaskFromRight(text, spans, labelOf) == Spliced(text, spans, 0, labelOf) <==> Separate(spans)
    ensures |MaskFromRight(text, spans, labelOf)| <= |Spliced(text, spans, 0, labelOf)|
  {
    hide MaskFromRight, Spliced, Separate, Increasing;
    MaskAgainstSplice(text, spans, labelOf);
  }

  /** How long the labels are together. */
  function LabelLength(spans: seq<Entity>, labelOf: string -> string): nat {
    if |spans| == 0 then 0 else |Bracketed(spans[0], labelOf)| + LabelLength(spans[1..], labelOf)
  }

  lemma {:induction false} CoveredSplits(s: seq<Entity>, x: int)
    requires |s| > 0
    ensures x in Covered(s) <==> s[0].start <= x < s[0].end || x in Covered(s[1..])
  {
    hide Covered;
    CoveredIff(s, x);
    CoveredIff(s[1..], x);
    assert forall i :: 0 <= i < |s| - 1 ==> s[1..][i] == s[i + 1];
  }

  /** Covered by the later spans means behind the start of the next one, and what the first span shares with them starts there. */
  lemma CoveredBehind(s: seq<Entity>, n: nat, x: int)
    requires |s| > 1 && Increasing(s) && forall e :: e in s ==> InRange(e, n)
    ensures x in Covered(s[1..]) ==> s[1].start <= x
    ensures s[1].start <= x < s[0].end ==> x in Covered(s[1..])
  {
    hide Covered;
    CoveredIff(s[1..], x);
    assert s[1..][0] == s[1];
    assert forall i :: 0 <= i < |s| - 1 ==> s[1..][i] == s[i + 1];
  }

  /** What the first of increasing spans adds to the covered positions: the part before the next start. */
  lemma FirstAdds(s: seq<Entity>, n: nat)
    requires |s| > 0 && Increasing(s) && forall e :: e in s ==> InRange(e, n)
    ensures var to := if |s| > 1 && s[1].start < s[0].end then s[1].start else s[0].end;
            |Covered(s)| == |Covered(s[1..])| + to - s[0].start
  {
    hide Covered, Increasing, Positions;
    TailSpans(s, n);
    var to := if |s| > 1 && s[1].start < s[0].end then s[1].start else s[0].end;
    forall x ensures x in Covered(s) <==> x in Covered(s[1..]) || x in Positions(s[0].start, to) {
      FirstCovers(s, n, x);
    }
    forall x ensures !(x in Covered(s[1..]) && x in Positions(s[0].start, to)) {
      FirstCovers(s, n, x);
    }
    assert Covered(s) == Covered(s[1..]) + Positions(s[0].start, to);
    UnionCount(Covered(s[1..]), Positions(s[0].start, to), Covered(s));
  }

  lemma FirstCovers(s: seq<Entity>, n: nat, x: int)
    requires |s| > 0 && Increasing(s) && forall e :: e in s ==> InRange(e, n)
    ensures var to := if |s| > 1 && s[1].start < s[0].end then s[1].start else s[0].end;
            && (x in Covered(s) <==> x in Covered(s[1..]) || x in Positions(s[0].start, to))
            && !(x in Covered(s[1..]) && x in Positions(s[0].start, to))
  {
    hide Increasing, Positions;
    CoveredSplits(s, x);
    if |s| > 1 {
      CoveredBehind(s, n, x);
    }
  }

  lemma UnionCount(a: set<int>, b: set<int>, c: set<int>)
    requires c == a + b && a !! b
    ensures |c| == |a| + |b|
  {
  }

  /** The reference holds exactly the labels and the text that no span covers. */
  lemma {:induction false} ReferenceLength(text: string, spans: seq<Entity>, labelOf: string -> string)
    requires Increasing(spans) && forall e :: e in spans ==> InRange(e, |text|)
    ensures |Spliced(text, spans, 0, labelOf)| == LabelLength(spans, labelOf) + |text| - |Covered(spans)|
    decreases |spans|
  {
    hide Covered, Increasing, Bracketed;
    if |spans| > 0 {
      TailSpans(spans, |text|);
      ReferenceLength(text, spans[1..], labelOf);
      SplicedFrom(text, spans[1..], spans[0].end, labelOf);
      FirstAdds(spans, |text|);
    } else {
      NothingCounted([]);
    }
  }

  /** A single span leaves its bracketed label in its place, and the text around it. */
  lemma OneSpanMasked(text: string, e: Entity, labelOf: string -> string)
    requires InRange(e, |text|)
    ensures Deduped([e]) == [e]
    ensures MaskFromRight(text, Deduped([e]), labelOf) == text[..e.start] + "[" + labelOf(e.kind) + "]" + text[e.end..]
  {
    hide Deduped, MaskFromRight, Replace, Bracketed;
    OneKept(e);
    MaskOne(text, e, labelOf);
    ReplaceIs(text, e, labelOf, text[..e.start], text[e.end..]);
    Brackets(text[..e.start], e, labelOf);
  }

  lemma OneKept(e: Entity)
    ensures Deduped([e]) == [e]
  {
    assert [e][..0] == [];
    assert Sorted([e]) == Insert([], e) == [] + [e] == [e];
    assert Keep([e]) == [] + [e] == [e];
  }

  lemma MaskOne(text: string, e: Entity, labelOf: string -> string)
    ensures MaskFromRight(text, [e], labelOf) == Replace(text, e, labelOf)
  {
    hide Replace;
    assert [e][..0] == [];
    assert MaskFromRight(text, [e], labelOf) == MaskFromRight(Replace(text, e, labelOf), [], labelOf);
  }

  lemma Brackets(before: string, e: Entity, labelOf: string -> string)
    ensures before + Bracketed(e, labelOf) == before + "[" + labelOf(e.kind) + "]"
  {
  }

  /** With a partial overlap the first replacement cuts into the label of the second. */
  lemma OverlapCutsLabels(labelOf: string -> string)
    requires labelOf("KIND_A") == "A" && labelOf("KIND_B") == "B"
    ensures MaskFromRight("abcd", Deduped([Entity("KIND_A", 0, 3), Entity("KIND_B", 1, 4)]), labelOf) == "[A]]"
  {
    hide Deduped, MaskFromRight, Replace;
    var a, b := Entity("KIND_A", 0, 3), Entity("KIND_B", 1, 4);
    KeepsBoth(a, b);
    MaskTwo("abcd", a, b, labelOf);
    ReplaceIs("abcd", b, labelOf, "a", "");
    assert Bracketed(b, labelOf) == "[B]" && Bracketed(a, labelOf) == "[A]";
    assert "a" + "[B]" + "" == "a[B]";
    ReplaceIs("a[B]", a, labelOf, "", "]");
    assert "" + "[A]" + "]" == "[A]]";
  }

  lemma MaskTwo(text: string, a: Entity, b: Entity, labelOf: string -> string)
    ensures MaskFromRight(text, [a, b], labelOf) == Replace(Replace(text, b, labelOf), a, labelOf)
  {
    hide Replace;
    assert [a, b][..1] == [a] && [a][..0] == [];
    assert MaskFromRight(Replace(text, b, labelOf), [a], labelOf) ==
           MaskFromRight(Replace(Replace(text, b, labelOf), a, labelOf), [], labelOf);
  }

  lemma ReplaceIs(text: string, e: Entity, labelOf: string -> string, before: string, after: string)
    requires text[..Clamp(e.start, text)] == before && text[Clamp(e.end, text)..] == after
    ensures Replace(text, e, labelOf) == before + Bracketed(e, labelOf) + after
  {
  }
}
