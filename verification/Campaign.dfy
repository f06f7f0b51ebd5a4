/** Budget split and verdict roll-up of a campaign (`campaign.rs`). */
module Campaign {
  import opened Common

  // ----------------------------------------------------------------- budget

  /** Division that truncates towards zero, as on machine integers. */
  function TruncatedQuotient(a: int, n: nat): int
    requires n > 0
  {
    if a >= 0 then a / n else -(-a / n)
  }

  /** `allocate_budget`, in whole cents. */
  function Shares(cents: int, n: nat): seq<int> {
    if n == 0 then []
    else
      var base := TruncatedQuotient(cents, n);
      var remainder := cents - base * n;
      seq(n, i requires 0 <= i < n => if i < remainder then base + 1 else base)
  }

  function Sum(s: seq<int>): int {
    if s == [] then 0 else Sum(s[..|s| - 1]) + s[|s| - 1]
  }

  lemma {:induction false} SumOfSteps(s: seq<int>, base: int, extra: int)
    requires forall i | 0 <= i < |s| :: s[i] == if i < extra then base + 1 else base
    ensures Sum(s) == base * |s| + (if extra <= 0 then 0 else if extra < |s| then extra else |s|)
  {
    if s != [] {
      SumOfSteps(s[..|s| - 1], base, extra);
      assert base * |s| == base * (|s| - 1) + base;
    }
  }

  lemma QuotientBounds(a: int, n: nat)
    requires n > 0
    ensures var r := a - TruncatedQuotient(a, n) * n; if a >= 0 then 0 <= r < n else 0 - n < r <= 0
    ensures a - TruncatedQuotient(a, n) * n == 0 <==> a % n == 0
  {
    if a < 0 {
      assert -a == (-a / n) * n + -a % n;
      if a % n == 0 {
        assert -a == (-(a / n)) * n;
        Multiple(-(a / n), n);
      }
      if -a % n == 0 {
        assert a == -(-a / n) * n;
        Multiple(-(-a / n), n);
      }
    }
  }

  lemma Multiple(k: int, n: nat)
    requires n > 0
    ensures (k * n) % n == 0
  {
    var q, r := (k * n) / n, (k * n) % n;
    assert (k - q) * n == r;
    ProductSize(k - q, n);
  }

  lemma ProductSize(d: int, n: nat)
    ensures d >= 1 ==> d * n >= n
    ensures d <= -1 ==> d * n <= 0 - n
  {
    if d >= 1 {
      assert d * n == (d - 1) * n + n;
    }
    if d <= -1 {
      assert d * n == (d + 1) * n - n;
    }
  }

  /** The shares sum back to the ceiling exactly when it is not negative or
      divides evenly; they never grow with the index and differ by a cent at
      most. */
  lemma SharesFacts(cents: int, n: nat)
    requires n > 0
    ensures |Shares(cents, n)| == n
    ensures Sum(Shares(cents, n)) == cents <==> cents >= 0 || cents % n == 0
    ensures forall i, j | 0 <= i < j < n :: 0 <= Shares(cents, n)[i] - Shares(cents, n)[j] <= 1
  {
    hide TruncatedQuotient;
    var base := TruncatedQuotient(cents, n);
    QuotientBounds(cents, n);
    SumOfSteps(Shares(cents, n), base, cents - base * n);
  }

  /** A negative ceiling that does not divide evenly: a cent is lost. */
  lemma NegativeSharesLose()
    ensures Sum(Shares(-1, 2)) != -1
  {
    SharesFacts(-1, 2);
  }

  // ---------------------------------------------------------------- roll-up

  datatype Tamper = CleanTamper | CaveatTamper | RefuseTamper

  datatype Verdict = Clean | Caveat | Refused

  datatype Leaf = Leaf(subId: string, run: Option<string>, gate: string, tamper: Tamper, caveats: seq<string>)

  /** What the lookup says of a result run. */
  datatype Answer = Answer(gate: string, tamper: Tamper, caveats: seq<string>)

  const SIGNED: string := "signed"
  const MISSING: string := "missing"

  datatype Sub = Sub(subId: string, run: Option<string>, merged: bool)

  datatype Rollup = Rollup(leaves: seq<Leaf>, verdict: Verdict, refused: seq<string>, caveat: seq<string>)

  function Effective(leaf: Leaf): Verdict {
    if leaf.gate != SIGNED then Refused
    else match leaf.tamper case CleanTamper => Clean case CaveatTamper => Caveat case RefuseTamper => Refused
  }

  function WorstOf(verdicts: seq<Verdict>): Verdict {
    if verdicts == [] || Refused in verdicts then Refused
    else if Caveat in verdicts then Caveat
    else Clean
  }

  function Effectives(leaves: seq<Leaf>): (r: seq<Verdict>)
    ensures |r| == |leaves|
  {
    seq(|leaves|, i requires 0 <= i < |leaves| => Effective(leaves[i]))
  }

  function IdsOf(leaves: seq<Leaf>, verdict: Verdict): (ids: seq<string>) {
    if leaves == [] then []
    else
      var last := leaves[|leaves| - 1];
      IdsOf(leaves[..|leaves| - 1], verdict) + (if Effective(last) == verdict then [last.subId] else [])
  }

  /** The leaf recorded for a sub. */
  function LeafOf(sub: Sub, lookup: string -> Answer): Leaf {
    match sub.run
    case Some(run) =>
      var answer := lookup(run);
      Leaf(sub.subId, Some(run), answer.gate, answer.tamper, answer.caveats)
    case None => Leaf(sub.subId, None, MISSING, RefuseTamper, [])
  }

  /** `build_rollup`. The lookup may keep state, so its answer depends on how
      many subs came before as well as on the run. */
  method BuildRollup(subs: seq<Sub>, lookup: nat -> string -> Answer) returns (rollup: Rollup)
    ensures |rollup.leaves| == |subs|
    ensures forall i | 0 <= i < |subs| ::
      rollup.leaves[i] == LeafOf(subs[i], lookup(i))
    ensures rollup.verdict == WorstOf(Effectives(rollup.leaves))
    ensures rollup.refused == IdsOf(rollup.leaves, Refused) && rollup.caveat == IdsOf(rollup.leaves, Caveat)
  {
    var leaves: seq<Leaf> := [];
    for i := 0 to |subs|
      invariant |leaves| == i
      invariant forall j | 0 <= j < i ::
        leaves[j] == LeafOf(subs[j], lookup(j))
    {
      match subs[i].run
      case Some(run) =>
        var answer := lookup(i)(run);
        leaves := leaves + [Leaf(subs[i].subId, Some(run), answer.gate, answer.tamper, answer.caveats)];
      case None =>
        leaves := leaves + [Leaf(subs[i].subId, None, MISSING, RefuseTamper, [])];
    }
    rollup := Rollup(leaves, WorstOf(Effectives(leaves)), IdsOf(leaves, Refused), IdsOf(leaves, Caveat));
  }

  /** `campaign_can_complete`. */
  predicate CanComplete(subs: seq<Sub>, rollup: Rollup) {
    (forall sub | sub in subs :: sub.merged) && rollup.verdict != Refused
  }

  /** No laundering: a campaign completes on its own roll-up exactly when it has
      a sub and every sub is merged with a signed, unrefused result. */
  lemma NoLaundering(subs: seq<Sub>, rollup: Rollup, lookup: nat -> string -> Answer)
    requires |rollup.leaves| == |subs| && rollup.verdict == WorstOf(Effectives(rollup.leaves))
    requires forall i | 0 <= i < |subs| ::
      rollup.leaves[i] == LeafOf(subs[i], lookup(i))
    ensures CanComplete(subs, rollup) <==>
      && subs != []
      && forall i | 0 <= i < |subs| ::
        && subs[i].merged && subs[i].run.Some?
        && lookup(i)(subs[i].run.value).gate == SIGNED && lookup(i)(subs[i].run.value).tamper != RefuseTamper
  {
    var verdicts := Effectives(rollup.leaves);
    forall i | 0 <= i < |subs|
      ensures verdicts[i] != Refused <==>
        subs[i].run.Some? && lookup(i)(subs[i].run.value).gate == SIGNED && lookup(i)(subs[i].run.value).tamper != RefuseTamper
    {
      assert verdicts[i] == Effective(rollup.leaves[i]);
    }
    if CanComplete(subs, rollup) {
      forall i | 0 <= i < |subs|
        ensures verdicts[i] != Refused && subs[i].merged
      {
        assert verdicts[i] in verdicts && subs[i] in subs;
      }
    }
  }

  /** The verdict's three values, in terms of the leaves. */
  lemma VerdictMeaning(leaves: seq<Leaf>)
    ensures var verdict := WorstOf(Effectives(leaves));
      && (verdict == Clean <==> leaves != [] && forall i | 0 <= i < |leaves| :: leaves[i].gate == SIGNED && leaves[i].tamper == CleanTamper)
      && (verdict == Refused <==>
            leaves == [] || exists i | 0 <= i < |leaves| :: leaves[i].gate != SIGNED || leaves[i].tamper == RefuseTamper)
  {
    var verdicts := Effectives(leaves);
    assert forall i | 0 <= i < |leaves| :: verdicts[i] == Effective(leaves[i]) && verdicts[i] in verdicts;
  }

  /** The roll-up names refused and caveat subs, and only those. */
  lemma {:induction false} IdsExact(leaves: seq<Leaf>, verdict: Verdict, id: string)
    ensures id in IdsOf(leaves, verdict) <==> exists i | 0 <= i < |leaves| :: leaves[i].subId == id && Effective(leaves[i]) == verdict
  {
    if leaves != [] {
      IdsExact(leaves[..|leaves| - 1], verdict, id);
    }
  }

  function Flatten(groups: seq<seq<Verdict>>): seq<Verdict> {
    if groups == [] then [] else groups[0] + Flatten(groups[1..])
  }

  function Worsts(groups: seq<seq<Verdict>>): (r: seq<Verdict>)
    ensures |r| == |groups|
  {
    seq(|groups|, i requires 0 <= i < |groups| => WorstOf(groups[i]))
  }

  lemma {:induction false} FlattenHas(groups: seq<seq<Verdict>>, v: Verdict)
    ensures v in Flatten(groups) <==> exists g | 0 <= g < |groups| :: v in groups[g]
  {
    if groups != [] {
      FlattenHas(groups[1..], v);
      if g :| 1 <= g < |groups| && v in groups[g] {
        assert v in groups[1..][g - 1];
      }
    }
  }

  /** Nesting changes no verdict, except that an empty group refuses: worst-of
      the groups' verdicts is worst-of all leaves exactly when no group is empty
      or the leaves are refused anyway. */
  lemma NestedWorstOf(groups: seq<seq<Verdict>>)
    ensures WorstOf(Worsts(groups)) == WorstOf(Flatten(groups))
      <==> (forall g | 0 <= g < |groups| :: groups[g] != []) || Flatten(groups) == [] || Refused in Flatten(groups)
  {
    var worsts := Worsts(groups);
    FlattenHas(groups, Refused);
    FlattenHas(groups, Caveat);
    FlattenHas(groups, Clean);
    assert forall g | 0 <= g < |groups| :: worsts[g] == WorstOf(groups[g]) && worsts[g] in worsts;
    if groups != [] && groups[0] != [] {
      assert groups[0][0] in groups[0];
    }
  }

  /** A clean leaf beside an empty group: refused as groups, clean as leaves. */
  lemma EmptyGroupRefuses()
    ensures WorstOf(Worsts([[Clean], []])) == Refused && WorstOf(Flatten([[Clean], []])) == Clean
  {
    var groups: seq<seq<Verdict>> := [[Clean], []];
    assert Worsts(groups)[1] == Refused;
    assert groups[1..] == [[]] && groups[1..][1..] == [];
    assert Flatten(groups[1..]) == [] + Flatten([]);
    assert Flatten(groups) == [Clean];
  }
}
