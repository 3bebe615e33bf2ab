/** The signing relay's confirmation gate: each write is put to the user, and one that was refused stays refused. */
module RelayGate {
  import opened Wrappers

  /** What the user says to each request, by its number; nothing at all counts as a refusal. */
  type Answers = nat -> Option<bool>

  /** `prompts` are the writes the user was asked about, in order. */
  datatype Gate = Gate(declined: set<nat>, prompts: seq<nat>)

  predicate Says(answers: Answers, j: nat) { answers(j) == Some(true) }

  function Confirm(answers: Answers, g: Gate, id: nat): (Gate, bool) {
    if id in g.declined then (g, false)
    else
      var approved := Says(answers, |g.prompts|);
      (Gate(if approved then g.declined else g.declined + {id}, g.prompts + [id]), approved)
  }

  class RelayApprovalGate {
    var declined: set<nat>
    var prompts: seq<nat>
    const answers: Answers

    ghost function Contents(): Gate
      reads this
    {
      Gate(declined, prompts)
    }

    constructor (answers: Answers)
      ensures Contents() == Gate({}, []) && this.answers == answers
    {
      this.declined, this.prompts, this.answers := {}, [], answers;
    }

    /** `confirm_write`. */
    method ConfirmWrite(id: nat) returns (approved: bool)
      modifies this
      ensures (Contents(), approved) == Confirm(answers, old(Contents()), id)
    {
      if id in declined {
        return false;
      }
      approved := answers(|prompts|) == Some(true);
      prompts := prompts + [id];
      if !approved {
        declined := declined + {id};
      }
    }
  }

  // ---------- whole runs ----------

  datatype Run = Run(gate: Gate, verdicts: seq<bool>)

  /** The relay's attempts, each for the write with that queue number. */
  function RunOf(answers: Answers, ids: seq<nat>): (r: Run)
    ensures |r.verdicts| == |ids|
  {
    if ids == [] then Run(Gate({}, []), [])
    else
      var before := RunOf(answers, ids[..|ids| - 1]);
      var (gate, approved) := Confirm(answers, before.gate, ids[|ids| - 1]);
      Run(gate, before.verdicts + [approved])
  }

  ghost predicate Refused(answers: Answers, prompts: seq<nat>, id: nat) {
    exists j :: 0 <= j < |prompts| && prompts[j] == id && !Says(answers, j)
  }

  /** The gate remembers exactly the writes that were refused. */
  ghost predicate RemembersRefusals(answers: Answers, g: Gate) {
    forall id: nat :: id in g.declined <==> Refused(answers, g.prompts, id)
  }

  lemma ConfirmRemembers(answers: Answers, g: Gate, id: nat)
    requires RemembersRefusals(answers, g)
    ensures RemembersRefusals(answers, Confirm(answers, g, id).0)
  {
    var g' := Confirm(answers, g, id).0;
    if g'.prompts != g.prompts {
      forall other: nat
        ensures other in g'.declined <==> Refused(answers, g'.prompts, other)
      {
        if Refused(answers, g.prompts, other) {
          var j :| 0 <= j < |g.prompts| && g.prompts[j] == other && !Says(answers, j);
          assert g'.prompts[j] == other;
        }
        if other == id && !Says(answers, |g.prompts|) {
          assert g'.prompts[|g.prompts|] == id;
        }
      }
    }
  }

  lemma {:induction false} RunRemembers(answers: Answers, ids: seq<nat>)
    ensures RemembersRefusals(answers, RunOf(answers, ids).gate)
  {
    if ids != [] {
      RunRemembers(answers, ids[..|ids| - 1]);
      ConfirmRemembers(answers, RunOf(answers, ids[..|ids| - 1]).gate, ids[|ids| - 1]);
    }
  }

  /** Nobody is asked again about a write that was refused. */
  lemma {:induction false} NoPromptStorm(answers: Answers, ids: seq<nat>, j: nat, k: nat)
    requires j < k < |RunOf(answers, ids).gate.prompts|
    requires RunOf(answers, ids).gate.prompts[j] == RunOf(answers, ids).gate.prompts[k]
    ensures Says(answers, j)
  {
    var before := RunOf(answers, ids[..|ids| - 1]).gate;
    if k < |before.prompts| {
      NoPromptStorm(answers, ids[..|ids| - 1], j, k);
    } else if !Says(answers, j) {
      RunRemembers(answers, ids[..|ids| - 1]);
      assert Refused(answers, before.prompts, before.prompts[j]);
    }
  }

  lemma {:induction false} PromptsGrow(answers: Answers, ids: seq<nat>, n: nat)
    requires n <= |ids|
    ensures RunOf(answers, ids[..n]).gate.prompts <= RunOf(answers, ids).gate.prompts
    ensures RunOf(answers, ids[..n]).gate.declined <= RunOf(answers, ids).gate.declined
    ensures RunOf(answers, ids[..n]).verdicts == RunOf(answers, ids).verdicts[..n]
    decreases |ids|
  {
    if n == |ids| {
      assert ids[..n] == ids;
    } else {
      PromptsGrow(answers, ids[..|ids| - 1], n);
      assert ids[..|ids| - 1][..n] == ids[..n];
    }
  }

  /**
   A write is confirmed exactly when the user was asked about it at that very attempt and agreed, which takes that it
   was never refused before.
   */
  lemma ConfirmedExactlyWhen(answers: Answers, ids: seq<nat>, i: nat)
    requires i < |ids|
    ensures var asked := RunOf(answers, ids[..i]).gate.prompts;
            RunOf(answers, ids).verdicts[i] <==> !Refused(answers, asked, ids[i]) && Says(answers, |asked|)
  {
    PromptsGrow(answers, ids, i + 1);
    assert ids[..i + 1][..i] == ids[..i];
    RunRemembers(answers, ids[..i]);
  }

  lemma OneStep(answers: Answers, ids: seq<nat>)
    requires ids != []
    ensures var step := Confirm(answers, RunOf(answers, ids[..|ids| - 1]).gate, ids[|ids| - 1]);
            RunOf(answers, ids).gate == step.0 && RunOf(answers, ids).verdicts[|ids| - 1] == step.1
  {}

  lemma VerdictAt(answers: Answers, ids: seq<nat>, i: nat)
    requires i < |ids|
    ensures var step := Confirm(answers, RunOf(answers, ids[..i]).gate, ids[i]);
            RunOf(answers, ids[..i + 1]).gate == step.0 && RunOf(answers, ids).verdicts[i] == step.1
  {
    assert ids[..i + 1][..i] == ids[..i];
    OneStep(answers, ids[..i + 1]);
    PromptsGrow(answers, ids, i + 1);
  }

  /** A refusal is final. */
  lemma RefusalIsFinal(answers: Answers, ids: seq<nat>, i: nat, j: nat)
    requires i < j < |ids| && ids[i] == ids[j] && !RunOf(answers, ids).verdicts[i]
    ensures !RunOf(answers, ids).verdicts[j]
  {
    var before := RunOf(answers, ids[..j]).gate;
    DeclinedAfter(answers, ids, i);
    DeclinedGrows(answers, ids, i + 1, j);
    VerdictAt(answers, ids, j);
    assert Confirm(answers, before, ids[j]) == (before, false);
  }

  lemma DeclinedAfter(answers: Answers, ids: seq<nat>, i: nat)
    requires i < |ids| && !RunOf(answers, ids).verdicts[i]
    ensures ids[i] in RunOf(answers, ids[..i + 1]).gate.declined
  {
    VerdictAt(answers, ids, i);
  }

  lemma DeclinedGrows(answers: Answers, ids: seq<nat>, m: nat, n: nat)
    requires m <= n <= |ids|
    ensures RunOf(answers, ids[..m]).gate.declined <= RunOf(answers, ids[..n]).gate.declined
  {
    PromptsGrow(answers, ids[..n], m);
    assert ids[..n][..m] == ids[..m];
  }

  // ---------- the same, in terms of attempts and verdicts alone ----------

  /** The write of the `i`-th attempt was refused at an earlier one. */
  ghost predicate RefusedBefore(ids: seq<nat>, verdicts: seq<bool>, i: nat)
    requires i < |ids| && |verdicts| == |ids|
  {
    exists k :: 0 <= k < i && ids[k] == ids[i] && !verdicts[k]
  }

  /** Those of the first `n` attempts at which the user is asked: all but those for writes refused before. */
  ghost function Asked(ids: seq<nat>, verdicts: seq<bool>, n: nat): seq<nat>
    requires n <= |ids| && |verdicts| == |ids|
  {
    if n == 0 then []
    else Asked(ids, verdicts, n - 1) + if RefusedBefore(ids, verdicts, n - 1) then [] else [ids[n - 1]]
  }

  lemma {:induction false} DeclinedAre(answers: Answers, ids: seq<nat>, n: nat, id: nat)
    requires n <= |ids|
    ensures id in RunOf(answers, ids[..n]).gate.declined
       <==> exists k :: 0 <= k < n && ids[k] == id && !RunOf(answers, ids).verdicts[k]
  {
    if n > 0 {
      DeclinedAre(answers, ids, n - 1, id);
      VerdictAt(answers, ids, n - 1);
      if id == ids[n - 1] && !RunOf(answers, ids).verdicts[n - 1] {
        assert ids[n - 1] == id;
      }
    }
  }

  lemma {:induction false} PromptsAre(answers: Answers, ids: seq<nat>, n: nat)
    requires n <= |ids|
    ensures RunOf(answers, ids[..n]).gate.prompts == Asked(ids, RunOf(answers, ids).verdicts, n)
  {
    if n > 0 {
      PromptsAre(answers, ids, n - 1);
      VerdictAt(answers, ids, n - 1);
      DeclinedAre(answers, ids, n - 1, ids[n - 1]);
    }
  }

  /**
   The user is asked at every attempt but those for writes refused at an earlier one, and an attempt succeeds exactly
   when the user is asked and agrees.
   */
  lemma VerdictsAre(answers: Answers, ids: seq<nat>, i: nat)
    requires i < |ids|
    ensures var verdicts := RunOf(answers, ids).verdicts;
            && (verdicts[i] <==>
                  !RefusedBefore(ids, verdicts, i) && answers(|Asked(ids, verdicts, i)|) == Some(true))
            && RunOf(answers, ids).gate.prompts == Asked(ids, verdicts, |ids|)
  {
    VerdictAt(answers, ids, i);
    DeclinedAre(answers, ids, i, ids[i]);
    PromptsAre(answers, ids, i);
    PromptsAre(answers, ids, |ids|);
    assert ids[..|ids|] == ids;
  }
}
