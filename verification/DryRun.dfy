/** The dry run of an automation pack: its prediction, and how it binds a later execution. */
module DryRun {
  import opened Text
  import opened Saga

  /** The rank of mergePolicyOutcome; anything it does not know ranks lowest. */
  function Rank(value: string): (n: nat)
    ensures n <= 3
  {
    var v := Lower(Trim(value));
    if v == ALLOW then 1 else if v == QUEUE then 2 else if v == DENY then 3 else 0
  }

  /** mergePolicyOutcome */
  function Merge(current: string, candidate: string): string {
    if Rank(candidate) > Rank(current) then Lower(Trim(candidate))
    else if current == "" then ALLOW
    else Lower(Trim(current))
  }

  /** applyApprovalSimulation on an outcome. */
  function WithApproval(outcome: string, r: Option<Requirement>): string {
    if !Required(r) then outcome
    else Merge(if Trim(outcome) == "" then ALLOW else outcome, QUEUE)
  }

  /** The outcome predicted for one step. */
  function Predicted(pack: Pack, policy: nat -> string, i: nat): string
    requires i < |pack.steps|
  {
    WithApproval(if policy(i) == "" then ALLOW else policy(i), pack.steps[i].approval)
  }

  const OUTCOMES := [ALLOW, QUEUE, DENY]

  lemma {:induction false} LowerKeeps(s: string)
    requires forall i :: 0 <= i < |s| ==> !('A' <= s[i] <= 'Z')
    ensures Lower(s) == s
  {}

  /** Lower-casing touches letters only, so it leaves trimmed text trimmed and is idempotent. */
  lemma {:induction false} NormalIsFixed(s: string)
    ensures var v := Lower(Trim(s)); Lower(Trim(v)) == v
  {
    var t := Trim(s);
    var v := Lower(t);
    if v != "" {
      LowerSpace(t[0]);
      LowerSpace(t[|t| - 1]);
      assert !IsSpace(v[0]) && !IsSpace(v[|v| - 1]);
    }
    assert Trimmed(v);
    LowerKeeps(v);
  }

  lemma {:induction false} LowerSpace(c: char)
    requires !IsSpace(c)
    ensures 'A' <= c <= 'Z' ==> !IsSpace((c as int + 32) as char)
  {}

  lemma {:induction false} AllowKnown()
    ensures Lower(Trim(ALLOW)) == ALLOW && Rank(ALLOW) == 1
  {
    LowerKeeps(ALLOW);
  }

  lemma {:induction false} QueueKnown()
    ensures Lower(Trim(QUEUE)) == QUEUE && Rank(QUEUE) == 2
  {
    LowerKeeps(QUEUE);
    assert QUEUE[0] != ALLOW[0];
  }

  lemma {:induction false} DenyKnown()
    ensures Lower(Trim(DENY)) == DENY && Rank(DENY) == 3
  {
    LowerKeeps(DENY);
    assert DENY[0] != ALLOW[0] && DENY[0] != QUEUE[0];
  }

  lemma {:induction false} RankKnown()
    ensures Rank(ALLOW) == 1 && Rank(QUEUE) == 2 && Rank(DENY) == 3
    ensures Lower(Trim(ALLOW)) == ALLOW && Lower(Trim(QUEUE)) == QUEUE && Lower(Trim(DENY)) == DENY
  {
    AllowKnown();
    QueueKnown();
    DenyKnown();
  }

  lemma {:induction false} RankOfNormal(s: string)
    ensures Rank(Lower(Trim(s))) == Rank(s)
  {
    NormalIsFixed(s);
  }

  /** Merging takes the higher rank, whatever the two outcomes are; only an empty one that meets nothing known becomes an
      allow. */
  lemma {:induction false} MergeIsMax(current: string, candidate: string)
    ensures Rank(Merge(current, candidate)) ==
            if Rank(candidate) > Rank(current) then Rank(candidate) else if current == "" then 1 else Rank(current)
  {
    AllowKnown();
    RankOfNormal(candidate);
    RankOfNormal(current);
  }

  /** From a known outcome the merged one is known. */
  lemma {:induction false} MergeStaysKnown(current: string, candidate: string)
    requires current in OUTCOMES
    ensures Merge(current, candidate) in OUTCOMES
  {
    RankKnown();
  }

  lemma {:induction false} PredictedRank(pack: Pack, policy: nat -> string, i: nat)
    requires i < |pack.steps|
    ensures Rank(Predicted(pack, policy, i)) ==
            var base := if policy(i) == "" then 1 else Rank(policy(i));
            if Required(pack.steps[i].approval) && base < 2 then 2 else base
  {
    RankKnown();
    var outcome := if policy(i) == "" then ALLOW else policy(i);
    if Required(pack.steps[i].approval) {
      var o := if Trim(outcome) == "" then ALLOW else outcome;
      assert Lower("") == "";
      NormalIsFixed(o);
    }
  }

  // ---- the prediction, independent of the order of the steps ----

  ghost predicate SomeRanked(pack: Pack, policy: nat -> string, n: nat, rank: nat)
    requires n <= |pack.steps|
  {
    exists i: nat :: i < n && Rank(Predicted(pack, policy, i)) == rank
  }

  /** The highest of what the first `n` steps predict: deny over queue over allow. */
  ghost function Highest(pack: Pack, policy: nat -> string, n: nat): string
    requires n <= |pack.steps|
  {
    if SomeRanked(pack, policy, n, 3) then DENY else if SomeRanked(pack, policy, n, 2) then QUEUE else ALLOW
  }

  lemma {:induction false} MergeStep(pack: Pack, policy: nat -> string, n: nat)
    requires n < |pack.steps|
    ensures Merge(Highest(pack, policy, n), Predicted(pack, policy, n)) == Highest(pack, policy, n + 1)
  {
    var current, next := Highest(pack, policy, n), Predicted(pack, policy, n);
    RankKnown();
    MergeIsMax(current, next);
    MergeStaysKnown(current, next);
    SomeRankedStep(pack, policy, n, 3);
    SomeRankedStep(pack, policy, n, 2);
    KnownByRank(Merge(current, next), Highest(pack, policy, n + 1));
  }

  lemma {:induction false} SomeRankedStep(pack: Pack, policy: nat -> string, n: nat, rank: nat)
    requires n < |pack.steps|
    ensures SomeRanked(pack, policy, n + 1, rank) <==> SomeRanked(pack, policy, n, rank) || Rank(Predicted(pack, policy, n)) == rank
  {
    if SomeRanked(pack, policy, n, rank) {
      var i: nat :| i < n && Rank(Predicted(pack, policy, i)) == rank;
      assert i < n + 1;
    }
  }

  lemma {:induction false} KnownByRank(a: string, b: string)
    requires a in OUTCOMES && b in OUTCOMES && Rank(a) == Rank(b)
    ensures a == b
  {
    RankKnown();
  }

  /** The prediction for the whole workflow: the highest of its steps, and at least queue if it requires approval itself. */
  ghost function Prediction(pack: Pack, policy: nat -> string): string {
    var highest := Highest(pack, policy, |pack.steps|);
    if Required(pack.approval) && highest == ALLOW then QUEUE else highest
  }

  /** What the policy says of a step, normalized; an empty answer is an allow. */
  predicate Says(policy: nat -> string, i: nat, outcome: string) {
    policy(i) != "" && Lower(Trim(policy(i))) == outcome
  }

  lemma {:induction false} SaysIff(pack: Pack, policy: nat -> string, i: nat)
    requires i < |pack.steps|
    ensures Rank(Predicted(pack, policy, i)) == 3 <==> Says(policy, i, "deny")
    ensures Rank(Predicted(pack, policy, i)) == 2 <==>
            !Says(policy, i, "deny") && (Says(policy, i, "queue") || (pack.steps[i].approval.Some? && pack.steps[i].approval.value.required))
  {
    PredictedRank(pack, policy, i);
    RankKnown();
  }

  ghost predicate SomeDenied(pack: Pack, policy: nat -> string) {
    exists i: nat :: i < |pack.steps| && Says(policy, i, "deny")
  }

  /** Some step is queued, or needs an approval of its own. */
  ghost predicate SomeHeld(pack: Pack, policy: nat -> string) {
    exists i: nat :: i < |pack.steps| && (Says(policy, i, "queue") || (pack.steps[i].approval.Some? && pack.steps[i].approval.value.required))
  }

  lemma {:induction false} DeniedIff(pack: Pack, policy: nat -> string)
    ensures SomeRanked(pack, policy, |pack.steps|, 3) <==> SomeDenied(pack, policy)
  {
    forall i: nat | i < |pack.steps| ensures Rank(Predicted(pack, policy, i)) == 3 <==> Says(policy, i, "deny") { SaysIff(pack, policy, i); }
  }

  lemma {:induction false} HeldIff(pack: Pack, policy: nat -> string)
    requires !SomeDenied(pack, policy)
    ensures SomeRanked(pack, policy, |pack.steps|, 2) <==> SomeHeld(pack, policy)
  {
    forall i: nat | i < |pack.steps|
      ensures Rank(Predicted(pack, policy, i)) == 2 <==>
              Says(policy, i, "queue") || (pack.steps[i].approval.Some? && pack.steps[i].approval.value.required)
    {
      SaysIff(pack, policy, i);
    }
  }

  /** The prediction is deny if and only if the policy denies some step, and otherwise queue if and only if it queues some
      step or an approval is required, of a step or of the workflow. */
  lemma {:induction false} PredictionIff(pack: Pack, policy: nat -> string)
    ensures Prediction(pack, policy) ==
            if SomeDenied(pack, policy) then "deny"
            else if SomeHeld(pack, policy) || (pack.approval.Some? && pack.approval.value.required) then "queue"
            else "allow"
  {
    DeniedIff(pack, policy);
    if !SomeDenied(pack, policy) { HeldIff(pack, policy); }
  }

  /** Every step of the second pack is a step of the first: step `i` is step `from(i)`. */
  ghost predicate Drawn(pack: Pack, policy: nat -> string, pack': Pack, policy': nat -> string, from: nat -> nat) {
    forall i: nat {:trigger from(i)} :: i < |pack'.steps| ==> from(i) < |pack.steps| && SameStep(pack, policy, pack', policy', from(i), i)
  }

  predicate SameStep(pack: Pack, policy: nat -> string, pack': Pack, policy': nat -> string, j: nat, i: nat)
    requires j < |pack.steps| && i < |pack'.steps|
  {
    pack'.steps[i] == pack.steps[j] && policy'(i) == policy(j)
  }

  lemma {:induction false} SamePrediction(pack: Pack, policy: nat -> string, pack': Pack, policy': nat -> string, j: nat, i: nat)
    requires j < |pack.steps| && i < |pack'.steps| && SameStep(pack, policy, pack', policy', j, i)
    ensures Rank(Predicted(pack', policy', i)) == Rank(Predicted(pack, policy, j))
  {}

  lemma {:induction false} DrawnRanks(pack: Pack, policy: nat -> string, pack': Pack, policy': nat -> string, from: nat -> nat, rank: nat)
    requires Drawn(pack, policy, pack', policy', from) && SomeRanked(pack', policy', |pack'.steps|, rank)
    ensures SomeRanked(pack, policy, |pack.steps|, rank)
  {
    var i: nat :| i < |pack'.steps| && Rank(Predicted(pack', policy', i)) == rank;
    var j := from(i);
    SamePrediction(pack, policy, pack', policy', j, i);
  }

  lemma {:induction false} SameRanks(pack: Pack, policy: nat -> string, pack': Pack, policy': nat -> string, from: nat -> nat, back: nat -> nat, rank: nat)
    requires Drawn(pack, policy, pack', policy', from) && Drawn(pack', policy', pack, policy, back)
    ensures SomeRanked(pack, policy, |pack.steps|, rank) <==> SomeRanked(pack', policy', |pack'.steps|, rank)
  {
    if SomeRanked(pack', policy', |pack'.steps|, rank) { DrawnRanks(pack, policy, pack', policy', from, rank); }
    if SomeRanked(pack, policy, |pack.steps|, rank) { DrawnRanks(pack', policy', pack, policy, back, rank); }
  }

  /** Two packs with the same steps have the same prediction, in whatever order the steps come. */
  lemma {:induction false} OrderDoesNotMatter(pack: Pack, policy: nat -> string, pack': Pack, policy': nat -> string, from: nat -> nat, back: nat -> nat)
    requires Drawn(pack, policy, pack', policy', from) && Drawn(pack', policy', pack, policy, back) && pack'.approval == pack.approval
    ensures Prediction(pack, policy) == Prediction(pack', policy')
  {
    SameRanks(pack, policy, pack', policy', from, back, 3);
    SameRanks(pack, policy, pack', policy', from, back, 2);
  }

  /** The loop of runDryRun and the workflow's own approval. */
  method Predict(pack: Pack, policy: nat -> string) returns (outcome: string)
    ensures outcome == Prediction(pack, policy)
  {
    outcome := ALLOW;
    for i := 0 to |pack.steps|
      invariant outcome == Highest(pack, policy, i)
    {
      MergeStep(pack, policy, i);
      outcome := Merge(outcome, Predicted(pack, policy, i));
    }
    RankKnown();
    outcome := WithApproval(outcome, pack.approval);
  }

  // ---- the prediction and the execution ----

  /** A prediction of allow means that no execution of the automation pack is ever blocked, whatever approvals its request carries
      and whatever its actions answer. */
  lemma {:induction false} AllowNeverBlocks(pack: Pack, w: World)
    requires Prediction(pack, w.policy) == ALLOW
    ensures StatusAt(pack, w, Stop(pack, w)) != ExecBlocked
  {
    var k := Stop(pack, w);
    if k < |pack.steps| {
      PredictedRank(pack, w.policy, k);
      RankKnown();
      assert !(Rank(Predicted(pack, w.policy, k)) == 3) && !(Rank(Predicted(pack, w.policy, k)) == 2);
      assert Outcome(w.policy(k)) != DENY && Outcome(w.policy(k)) != QUEUE;
      assert GateOf(pack, w, k) == Open;
    }
  }

  /** A deny predicted for a mutating step means that no execution ever succeeds. */
  lemma {:induction false} DenyNeverSucceeds(pack: Pack, w: World, i: nat)
    requires i < |pack.steps| && pack.steps[i].mutating && Rank(Predicted(pack, w.policy, i)) == 3
    ensures Stop(pack, w) <= i && StatusAt(pack, w, Stop(pack, w)) != ExecSucceeded
  {
    PredictedRank(pack, w.policy, i);
    RankKnown();
    assert Outcome(w.policy(i)) == DENY;
    assert Verdict(pack, w, i) == Blocked;
  }

  /** A step passes its gate under every approval context if and only if it mutates nothing, or no policy holds it back and
      neither it nor its workflow requires approval: a required approval is never satisfied by default. */
  lemma {:induction false} OpenForAll(pack: Pack, w: World, i: nat)
    requires i < |pack.steps|
    ensures (forall workflow, decision :: GateOf(pack, w.(workflow := workflow, decision := decision), i) == Open)
       <==> !pack.steps[i].mutating || (Rank(Predicted(pack, w.policy, i)) <= 1 && !Required(pack.approval))
  {
    PredictedRank(pack, w.policy, i);
    RankKnown();
    var none := Decision(false, 0);
    var bare := w.(workflow := none, decision := j => none);
    assert Rank(Predicted(pack, w.policy, i)) <= 1 ==> Outcome(w.policy(i)) != DENY && Outcome(w.policy(i)) != QUEUE;
    if pack.steps[i].mutating && !(Rank(Predicted(pack, w.policy, i)) <= 1 && !Required(pack.approval)) {
      assert GateOf(pack, bare, i) != Open;
    }
  }
}
