/**
 The executor behind the assistant's tool calls.  A call passes the session's scope, has its accounts resolved, and, if
 it is risky, is shown to the user and waits for approval before anything is done.
 */
module ChatTools {
  import opened Wrappers
  import opened Text
  import opened Eip55

  // ---------- which account is debited ----------

  datatype AccountError = NotInWallet | NoAccount | NoneSelected

  /** The first account that is the selected one, if case does not count. */
  function Find(accounts: seq<string>, selected: string): Option<string> {
    if accounts == [] then None
    else if Lower(accounts[0]) == Lower(selected) then Some(accounts[0])
    else Find(accounts[1..], selected)
  }

  /** `resolve_chat_send_from`. */
  function ResolveFrom(selected: string, accounts: seq<string>): Result<string, AccountError> {
    var sel := Trim(selected);
    if sel != "" then
      match Find(accounts, sel)
      case Some(a) => Ok(a)
      case None => Err(NotInWallet)
    else if |accounts| == 1 then Ok(accounts[0])
    else if accounts == [] then Err(NoAccount)
    else Err(NoneSelected)
  }

  lemma {:induction false} FindIsFirst(accounts: seq<string>, selected: string)
    ensures match Find(accounts, selected)
            case None => forall i :: 0 <= i < |accounts| ==> Lower(accounts[i]) != Lower(selected)
            case Some(a) => exists i :: 0 <= i < |accounts| && IsFirst(accounts, selected, i) && a == accounts[i]
  {
    if accounts != [] {
      if Lower(accounts[0]) == Lower(selected) {
        assert IsFirst(accounts, selected, 0);
      } else {
        FindIsFirst(accounts[1..], selected);
        if Find(accounts, selected).Some? {
          var i :| && 0 <= i < |accounts[1..]|
                   && IsFirst(accounts[1..], selected, i)
                   && Find(accounts, selected).value == accounts[1..][i];
          assert IsFirst(accounts, selected, i + 1) by {
            forall j | 0 <= j < i + 1
              ensures Lower(accounts[j]) != Lower(selected)
            {
              if j > 0 {
                assert accounts[j] == accounts[1..][j - 1];
              }
            }
          }
        } else {
          forall i | 0 <= i < |accounts|
            ensures Lower(accounts[i]) != Lower(selected)
          {
            if i > 0 {
              assert accounts[i] == accounts[1..][i - 1];
            }
          }
        }
      }
    }
  }

  ghost predicate IsFirst(accounts: seq<string>, selected: string, i: nat) {
    && i < |accounts|
    && Lower(accounts[i]) == Lower(selected)
    && forall j :: 0 <= j < i ==> Lower(accounts[j]) != Lower(selected)
  }

  /** The debited account is never guessed: it is the selected one, or the only one there is. */
  lemma FromIsTheUsers(selected: string, accounts: seq<string>, a: string)
    ensures ResolveFrom(selected, accounts) == Ok(a)
       <==> if Trim(selected) == "" then accounts == [a]
            else exists i :: 0 <= i < |accounts| && IsFirst(accounts, Trim(selected), i) && a == accounts[i]
  {
    var sel := Trim(selected);
    if sel != "" {
      FindIsFirst(accounts, sel);
      if i, j :| && 0 <= i < |accounts| && 0 <= j < |accounts| && i != j
                 && IsFirst(accounts, sel, i) && IsFirst(accounts, sel, j) {
        assert false;
      }
    }
  }

  // ---------- calls ----------

  datatype Risk = Low | High | Critical

  datatype ToolCall = ToolCall(name: string, to: Option<string>, amount: Option<string>, subject: string)

  datatype Error =
    | OutOfScope
    | BadRecipient(refusal: Refusal)
    | BadAccount(error: AccountError)
    | DeniedByUser
    | MissingAmount
    | InvalidAmount
    | MissingHash
    | Failed(text: string)
    | NotWired

  /** What is seen of a call from outside, in order. */
  datatype Entry =
    | Requested(tool: string, risk: Risk, target: string)
    | Card(id: nat, tool: string, risk: Risk, target: string, scope: string)
    | Approved(tool: string, id: nat)
    | Denied(tool: string, id: nat)
    | Sent(from: string, to: string, wei: string)
    | Completed(tool: string, success: bool)

  /** The hash of the checksums, the conversion of amounts, and what the user says to each request. */
  datatype World = World(hash: Hash, toWei: string -> Option<string>, answers: nat -> Option<bool>)

  /** What a call meets: whether the session's scope allows the tool, the wallet, and what the services return. */
  datatype Situation = Situation(
    call: ToolCall, allowed: bool, accounts: seq<string>, selected: string,
    sending: Result<string, string>, reading: Result<string, Error>)

  const SEND := "send_tx"

  function RiskOf(tool: string): Risk {
    if tool == SEND || tool == "deploy_contract" || tool == "file_write" || tool == "file_edit" then High
    else if tool == "shell_exec" then Critical
    else Low
  }

  predicate IsRead(tool: string) {
    tool == "check_balance" || tool == "get_block_height" || tool == "get_peer_count" || tool == "explain_tx"
    || tool == "get_recent_blocks" || tool == "get_tx_history"
  }

  function OrElse(o: Option<string>, otherwise: string): string { if o.Some? then o.value else otherwise }

  /** Both accounts of a transfer, settled before the user is asked. */
  function Plan(w: World, s: Situation): Result<(string, string), Error> {
    match Validate(w.hash, OrElse(s.call.to, ""))
    case Err(refusal) => Err(BadRecipient(refusal))
    case Ok(to) =>
      match ResolveFrom(s.selected, s.accounts)
      case Err(error) => Err(BadAccount(error))
      case Ok(from) => Ok((from, to))
  }

  function ShownAccounts(w: World, from: string, to: string): string {
    "From: " + Checksum(w.hash, from) + "  To: " + Checksum(w.hash, to)
  }

  function ShownAmount(call: ToolCall): string { "Send " + OrElse(call.amount, "?") + " SALT" }

  function TargetOf(w: World, call: ToolCall, plan: (string, string)): string {
    if call.name == SEND then ShownAccounts(w, plan.0, plan.1) else call.subject
  }

  function ScopeOf(call: ToolCall): string {
    if call.name == SEND then ShownAmount(call)
    else if call.name == "deploy_contract" then "Deploy new contract to chain"
    else if call.name == "shell_exec" then "Execute shell command"
    else "Modify filesystem"
  }

  // ---------- one call ----------

  /** What one call leaves behind, and whether it asked the user. */
  datatype Attempt = Attempt(trace: seq<Entry>, asked: bool, result: Result<string, Error>)

  /** The tool itself, once nothing stands in its way. */
  function Perform(w: World, s: Situation, plan: (string, string)): Attempt {
    var tool := s.call.name;
    if tool == SEND then
      if s.call.amount.None? then Attempt([], false, Err(MissingAmount)) else
      match w.toWei(s.call.amount.value)
      case None => Attempt([], false, Err(InvalidAmount))
      case Some(wei) =>
        Attempt([Sent(plan.0, plan.1, wei), Completed(tool, s.sending.Ok?)], false,
                if s.sending.Ok? then Ok(s.sending.value) else Err(Failed(s.sending.error)))
    else if IsRead(tool) then
      if tool == "explain_tx" && s.reading == Err(MissingHash) then Attempt([], false, s.reading)
      else Attempt([Completed(tool, s.reading.Ok?)], false, s.reading)
    else Attempt([Completed(tool, false)], false, Err(NotWired))
  }

  function Settled(w: World, s: Situation): Result<(string, string), Error> {
    if s.call.name == SEND then Plan(w, s) else Ok(("", ""))
  }

  function RequestTrace(w: World, s: Situation, id: nat, plan: (string, string)): seq<Entry> {
    var tool, target := s.call.name, TargetOf(w, s.call, plan);
    [Requested(tool, RiskOf(tool), target), Card(id, tool, RiskOf(tool), target, ScopeOf(s.call)),
     if w.answers(id) == Some(true) then Approved(tool, id) else Denied(tool, id)]
  }

  function Try(w: World, s: Situation, id: nat): Attempt {
    if !s.allowed then Attempt([], false, Err(OutOfScope)) else
    var settled := Settled(w, s);
    if settled.Err? then Attempt([], false, Err(settled.error))
    else if RiskOf(s.call.name) == Low then Perform(w, s, settled.value)
    else
      var request := RequestTrace(w, s, id, settled.value);
      if w.answers(id) != Some(true) then Attempt(request, true, Err(DeniedByUser)) else
      var done := Perform(w, s, settled.value);
      Attempt(request + done.trace, true, done.result)
  }

  class Executor {
    const w: World
    var trace: seq<Entry>
    var asked: nat

    constructor (w: World)
      ensures trace == [] && asked == 0 && this.w == w
    {
      this.w, trace, asked := w, [], 0;
    }

    /** Settles both accounts of a transfer, before the user is asked. */
    method SettlePlan(s: Situation) returns (plan: Result<(string, string), Error>)
      ensures plan == Settled(w, s)
    {
      if s.call.name != SEND {
        return Ok(("", ""));
      }
      var to := Validate(w.hash, OrElse(s.call.to, ""));
      if to.Err? {
        return Err(BadRecipient(to.error));
      }
      var from := ResolveFrom(s.selected, s.accounts);
      if from.Err? {
        return Err(BadAccount(from.error));
      }
      plan := Ok((from.value, to.value));
    }

    /** Shows the card, and waits for the user. */
    method AskUser(s: Situation, plan: (string, string)) returns (approved: bool)
      modifies this
      ensures trace == old(trace) + RequestTrace(w, s, old(asked), plan)
      ensures asked == old(asked) + 1 && approved == (w.answers(old(asked)) == Some(true))
    {
      var tool, id := s.call.name, asked;
      var target := TargetOf(w, s.call, plan);
      trace := trace + [Requested(tool, RiskOf(tool), target)];
      asked := asked + 1;
      trace := trace + [Card(id, tool, RiskOf(tool), target, ScopeOf(s.call))];
      approved := w.answers(id) == Some(true);
      if approved {
        trace := trace + [Approved(tool, id)];
      } else {
        trace := trace + [Denied(tool, id)];
      }
    }

    /** The tool itself. */
    method PerformTool(s: Situation, plan: (string, string)) returns (result: Result<string, Error>)
      modifies this`trace
      ensures trace == old(trace) + Perform(w, s, plan).trace && result == Perform(w, s, plan).result
    {
      var tool := s.call.name;
      if tool == SEND {
        if s.call.amount.None? {
          return Err(MissingAmount);
        }
        var wei := w.toWei(s.call.amount.value);
        if wei.None? {
          return Err(InvalidAmount);
        }
        trace := trace + [Sent(plan.0, plan.1, wei.value)];
        result := if s.sending.Ok? then Ok(s.sending.value) else Err(Failed(s.sending.error));
      } else if IsRead(tool) {
        result := s.reading;
        if tool == "explain_tx" && result == Err(MissingHash) {
          return;
        }
      } else {
        result := Err(NotWired);
      }
      trace := trace + [Completed(tool, result.Ok?)];
    }

    /** The closure the chat service calls for each tool call. */
    method Execute(s: Situation) returns (result: Result<string, Error>)
      modifies this
      ensures var a := Try(w, s, old(asked));
              && trace == old(trace) + a.trace
              && asked == old(asked) + (if a.asked then 1 else 0)
              && result == a.result
    {
      if !s.allowed {
        return Err(OutOfScope);
      }
      var plan := SettlePlan(s);
      if plan.Err? {
        return Err(plan.error);
      }
      if RiskOf(s.call.name) != Low {
        var approved := AskUser(s, plan.value);
        if !approved {
          return Err(DeniedByUser);
        }
      }
      result := PerformTool(s, plan.value);
    }
  }

  // ---------- what one call may leave ----------

  /** A transfer is made in exactly these circumstances, and then once, between approval and completion. */
  predicate MayTransfer(w: World, s: Situation, id: nat) {
    && s.allowed
    && s.call.name == "send_tx"
    && Validate(w.hash, OrElse(s.call.to, "")).Ok?
    && ResolveFrom(s.selected, s.accounts).Ok?
    && w.answers(id) == Some(true)
    && s.call.amount.Some?
    && w.toWei(s.call.amount.value).Some?
  }

  ghost predicate HasSend(trace: seq<Entry>) { exists p :: 0 <= p < |trace| && trace[p].Sent? }

  lemma TransfersExactlyWhen(w: World, s: Situation, id: nat)
    ensures HasSend(Try(w, s, id).trace) <==> MayTransfer(w, s, id)
    ensures MayTransfer(w, s, id) ==> Try(w, s, id).trace == TransferTrace(w, s, id)
  {
    if MayTransfer(w, s, id) {
      TransferLeaves(w, s, id);
      assert Try(w, s, id).trace[3].Sent?;
    }
  }

  /** The card and the transfer carry the same two accounts and the same amount. */
  function TransferTrace(w: World, s: Situation, id: nat): seq<Entry>
    requires MayTransfer(w, s, id)
  {
    var from, to := ResolveFrom(s.selected, s.accounts).value, Validate(w.hash, OrElse(s.call.to, "")).value;
    var accounts := "From: " + Checksum(w.hash, from) + "  To: " + Checksum(w.hash, to);
    [Requested("send_tx", High, accounts),
     Card(id, "send_tx", High, accounts, "Send " + s.call.amount.value + " SALT"),
     Approved("send_tx", id),
     Sent(from, to, w.toWei(s.call.amount.value).value),
     Completed("send_tx", s.sending.Ok?)]
  }

  lemma TransferLeaves(w: World, s: Situation, id: nat)
    requires MayTransfer(w, s, id)
    ensures Try(w, s, id).trace == TransferTrace(w, s, id)
  {}

  // ---------- who is asked, and what is answered ----------

  /** The accounts of a transfer are in order; other tools have none. */
  predicate InOrder(w: World, s: Situation) {
    s.call.name == "send_tx" ==> Validate(w.hash, OrElse(s.call.to, "")).Ok? && ResolveFrom(s.selected, s.accounts).Ok?
  }

  predicate Risky(tool: string) {
    tool in {"send_tx", "deploy_contract", "file_write", "file_edit", "shell_exec"}
  }

  predicate Reading(tool: string) {
    tool in {"check_balance", "get_block_height", "get_peer_count", "explain_tx", "get_recent_blocks", "get_tx_history"}
  }

  ghost predicate HasCard(trace: seq<Entry>) { exists p :: 0 <= p < |trace| && trace[p].Card? }

  /** The user is asked about every risky tool that the scope allows and whose accounts are in order; first of all. */
  lemma AsksExactlyWhen(w: World, s: Situation, id: nat)
    ensures HasCard(Try(w, s, id).trace) <==> s.allowed && Risky(s.call.name) && InOrder(w, s)
    ensures Try(w, s, id).asked <==> s.allowed && Risky(s.call.name) && InOrder(w, s)
    ensures s.allowed && Risky(s.call.name) && InOrder(w, s) ==>
              var t := Try(w, s, id).trace;
              |t| >= 3 && t[1].Card? && t[1].id == id && t[1].tool == s.call.name
              && t[2] == if w.answers(id) == Some(true) then Approved(s.call.name, id) else Denied(s.call.name, id)
  {
    var t := Try(w, s, id).trace;
    if s.allowed && Risky(s.call.name) && InOrder(w, s) {
      assert t[1].Card?;
    } else {
      PerformShowsNoCard(w, s, ("", ""));
    }
  }

  lemma PerformShowsNoCard(w: World, s: Situation, plan: (string, string))
    ensures !HasCard(Perform(w, s, plan).trace)
  {}

  /** What a card shows of a tool other than a transfer. */
  lemma CardsShow(w: World, s: Situation, id: nat, p: nat)
    requires p < |Try(w, s, id).trace| && Try(w, s, id).trace[p].Card? && s.call.name != "send_tx"
    ensures var risk := if s.call.name == "shell_exec" then Critical else High;
            var scope := if s.call.name == "shell_exec" then "Execute shell command"
                         else if s.call.name == "deploy_contract" then "Deploy new contract to chain"
                         else "Modify filesystem";
            Try(w, s, id).trace[p] == Card(id, s.call.name, risk, s.call.subject, scope)
  {
    PerformShowsNoCard(w, s, ("", ""));
  }

  /** A call succeeds if and only if its transfer or its read was made and succeeded; its answer is then theirs. */
  lemma OkExactlyWhen(w: World, s: Situation, id: nat, text: string)
    ensures Try(w, s, id).result == Ok(text) <==>
              || (HasSend(Try(w, s, id).trace) && s.sending == Ok(text))
              || (s.allowed && Reading(s.call.name) && s.reading == Ok(text))
  {
    TransfersExactlyWhen(w, s, id);
  }

  /** What every other call is answered. */
  lemma RefusedAs(w: World, s: Situation, id: nat, result: Result<string, Error>)
    requires result == Try(w, s, id).result
    ensures !s.allowed ==> result == Err(OutOfScope)
    ensures s.allowed && !InOrder(w, s) ==>
              match Validate(w.hash, OrElse(s.call.to, ""))
              case Err(refusal) => result == Err(BadRecipient(refusal))
              case Ok(_) => result == Err(BadAccount(ResolveFrom(s.selected, s.accounts).error))
    ensures s.allowed && InOrder(w, s) && Risky(s.call.name) && w.answers(id) != Some(true) ==>
              result == Err(DeniedByUser)
    ensures s.allowed && Reading(s.call.name) ==> result == s.reading
    ensures s.allowed && !Reading(s.call.name) && !Risky(s.call.name) ==> result == Err(NotWired)
    ensures s.allowed && Risky(s.call.name) && s.call.name != "send_tx" && w.answers(id) == Some(true) ==>
              result == Err(NotWired)
  {}

  /** What an approved transfer is answered: a missing amount, an unusable one, or what came of sending it. */
  lemma TransferAnswered(w: World, s: Situation, id: nat, result: Result<string, Error>)
    requires s.allowed && InOrder(w, s) && s.call.name == "send_tx" && w.answers(id) == Some(true)
    requires result == Try(w, s, id).result
    ensures match s.call.amount
            case None => result == Err(MissingAmount)
            case Some(amount) =>
              if w.toWei(amount).None? then result == Err(InvalidAmount)
              else result == (match s.sending case Ok(text) => Ok(text) case Err(text) => Err(Failed(text)))
  {}

  /** Why no account is debited. */
  lemma NoFromBecause(selected: string, accounts: seq<string>)
    ensures ResolveFrom(selected, accounts) == Err(NotInWallet) <==>
              && Trim(selected) != ""
              && forall i :: 0 <= i < |accounts| ==> Lower(accounts[i]) != Lower(Trim(selected))
    ensures ResolveFrom(selected, accounts) == Err(NoAccount) <==> Trim(selected) == "" && |accounts| == 0
    ensures ResolveFrom(selected, accounts) == Err(NoneSelected) <==> Trim(selected) == "" && |accounts| >= 2
  {
    FindIsFirst(accounts, Trim(selected));
  }

  // ---------- how a call ends ----------

  ghost predicate HasCompletion(trace: seq<Entry>) { exists p :: 0 <= p < |trace| && trace[p].Completed? }

  ghost predicate HasApproval(trace: seq<Entry>) { exists p :: 0 <= p < |trace| && trace[p].Approved? }

  /** Nothing stands in the tool's way: the scope allows it, its accounts are settled, and a risky one is approved. */
  predicate Performs(w: World, s: Situation, id: nat) {
    s.allowed && Settled(w, s).Ok? && (RiskOf(s.call.name) == Low || w.answers(id) == Some(true))
  }

  /** The amount of a transfer is missing, or is none. */
  predicate AmountUnusable(w: World, call: ToolCall) { call.amount.None? || w.toWei(call.amount.value).None? }

  /** The tool ends early: a transfer for want of an amount, an explanation for want of a hash. */
  predicate GivesUp(w: World, s: Situation) {
    || (s.call.name == SEND && AmountUnusable(w, s.call))
    || (s.call.name == "explain_tx" && s.reading == Err(MissingHash))
  }

  lemma PerformCompletes(w: World, s: Situation, plan: (string, string))
    ensures HasCompletion(Perform(w, s, plan).trace) <==> !GivesUp(w, s)
  {
    var t := Perform(w, s, plan).trace;
    if !GivesUp(w, s) {
      assert t[|t| - 1].Completed?;
    }
  }

  /** A call leaves a completion event if and only if its tool is performed and does not end early. */
  lemma CompletesExactlyWhen(w: World, s: Situation, id: nat)
    ensures HasCompletion(Try(w, s, id).trace) <==> Performs(w, s, id) && !GivesUp(w, s)
  {
    var t, settled := Try(w, s, id).trace, Settled(w, s);
    if Performs(w, s, id) {
      var done := Perform(w, s, settled.value).trace;
      PerformCompletes(w, s, settled.value);
      if RiskOf(s.call.name) != Low {
        CompletionBehind(RequestTrace(w, s, id, settled.value), done);
      }
    }
  }

  lemma CompletionBehind(request: seq<Entry>, done: seq<Entry>)
    requires forall p :: 0 <= p < |request| ==> !request[p].Completed?
    ensures HasCompletion(request + done) <==> HasCompletion(done)
  {
    if HasCompletion(done) {
      var p :| 0 <= p < |done| && done[p].Completed?;
      assert (request + done)[|request| + p].Completed?;
    }
  }

  /** An approved call ends without a completion event if and only if it is a transfer without a usable amount. */
  lemma ApprovedThenSilent(w: World, s: Situation, id: nat)
    requires HasApproval(Try(w, s, id).trace)
    ensures !HasCompletion(Try(w, s, id).trace) <==> s.call.name == SEND && AmountUnusable(w, s.call)
  {
    CompletesExactlyWhen(w, s, id);
  }

  lemma ApprovedWhenPerformed(w: World, s: Situation, id: nat)
    requires Performs(w, s, id) && RiskOf(s.call.name) != Low
    ensures HasApproval(Try(w, s, id).trace)
  {
    assert Try(w, s, id).trace[2].Approved?;
  }

  lemma OnlyAccount(account: string)
    ensures ResolveFrom("", [account]) == Ok(account)
  {
    assert Trim("") == "";
  }

  /** Such a call: a transfer of an unstated amount to the address of zeros, from the only account there is. */
  lemma SilentTransfer(w: World, s: Situation, hex: string, account: string)
    requires hex == seq(40, i => '0') && w.answers(0) == Some(true)
    requires s == Situation(ToolCall(SEND, Some("0x" + Lower(hex)), None, ""), true, [account], "", Ok(""), Ok(""))
    ensures HasApproval(Try(w, s, 0).trace) && !HasCompletion(Try(w, s, 0).trace)
  {
    ChecksummedIsAccepted(w.hash, hex);
    OnlyAccount(account);
    ApprovedWhenPerformed(w, s, 0);
    CompletesExactlyWhen(w, s, 0);
  }

  /** What the card shows is what is signed: no other pair of addresses has the same text. */
  lemma ShownAccountsDetermine(w: World, f1: string, t1: string, f2: string, t2: string)
    requires |f1| == |f2| == 42 && |t1| == |t2| == 42
    requires "0x" <= f1 && "0x" <= f2 && "0x" <= t1 && "0x" <= t2
    requires ShownAccounts(w, f1, t1) == ShownAccounts(w, f2, t2)
    ensures Lower(f1) == Lower(f2) && Lower(t1) == Lower(t2)
  {
    ShownParts(w, f1, t1);
    ShownParts(w, f2, t2);
    ChecksumDetermines(w.hash, f1, f2);
    ChecksumDetermines(w.hash, t1, t2);
  }

  lemma ShownParts(w: World, from: string, to: string)
    requires |from| == 42 && |to| == 42 && "0x" <= from && "0x" <= to
    ensures var shown := ShownAccounts(w, from, to);
            |shown| == 96 && shown[6..48] == Checksum(w.hash, from) && shown[54..] == Checksum(w.hash, to)
  {}

  // ---------- whole runs ----------

  datatype Log = Log(trace: seq<Entry>, asked: nat)

  /** The calls of a session, one after the other. */
  function RunAll(w: World, calls: seq<Situation>): Log {
    if calls == [] then Log([], 0)
    else
      var before := RunAll(w, calls[..|calls| - 1]);
      var last := Try(w, calls[|calls| - 1], before.asked);
      Log(before.trace + last.trace, before.asked + if last.asked then 1 else 0)
  }

  /** The transfer at `p` is that of a call: to the last letter what its card showed, and approved under its number. */
  ghost predicate IsTheUsers(w: World, s: Situation, id: nat, trace: seq<Entry>, p: nat) {
    && MayTransfer(w, s, id)
    && ResolveFrom(s.selected, s.accounts).value in s.accounts
    && 3 <= p < |trace|
    && trace[p - 3..p + 1] == TransferTrace(w, s, id)[..4]
  }

  lemma FromIsInWallet(selected: string, accounts: seq<string>)
    requires ResolveFrom(selected, accounts).Ok?
    ensures ResolveFrom(selected, accounts).value in accounts
  {
    FromIsTheUsers(selected, accounts, ResolveFrom(selected, accounts).value);
  }

  lemma SendOfCall(w: World, s: Situation, id: nat, before: seq<Entry>, t: seq<Entry>, p: nat)
    requires t == Try(w, s, id).trace && p < |t| && t[p].Sent?
    ensures IsTheUsers(w, s, id, before + t, |before| + p)
  {
    TransfersExactlyWhen(w, s, id);
    FromIsInWallet(s.selected, s.accounts);
    SendIsFourth(t, p);
    InContext(before, t, 0, 4);
  }

  lemma SendIsFourth(t: seq<Entry>, p: nat)
    requires |t| == 5 && !t[0].Sent? && !t[1].Sent? && !t[2].Sent? && !t[4].Sent? && p < 5 && t[p].Sent?
    ensures p == 3
  {}

  lemma InContext<T>(before: seq<T>, t: seq<T>, i: nat, j: nat)
    requires i <= j <= |t|
    ensures (before + t)[|before| + i..|before| + j] == t[i..j]
  {}

  /** In every run, every transfer belongs to a call of the run that the user approved. */
  lemma {:induction false} EverySendIsTheUsers(w: World, calls: seq<Situation>, p: nat) returns (k: nat, id: nat)
    requires p < |RunAll(w, calls).trace| && RunAll(w, calls).trace[p].Sent?
    ensures k < |calls| && IsTheUsers(w, calls[k], id, RunAll(w, calls).trace, p)
  {
    var before := RunAll(w, calls[..|calls| - 1]);
    if p < |before.trace| {
      k, id := EverySendIsTheUsers(w, calls[..|calls| - 1], p);
    } else {
      k, id := |calls| - 1, before.asked;
      SendOfCall(w, calls[k], id, before.trace, Try(w, calls[k], id).trace, p - |before.trace|);
    }
  }

  // ---------- the language of the traces ----------

  datatype Phase =
    | Idle
    | Wanted(tool: string, target: string)
    | Shown(tool: string, target: string, id: nat)
    | Cleared(tool: string, target: string)
    | Transferred

  /** Where a trace has got to, and the number the next request will have. */
  datatype State = State(phase: Phase, next: nat)

  /** A call begins: none is open, or the last one was a transfer that was approved and gave up. */
  function Begin(q: State, e: Entry): Option<State> {
    match e
    case Requested(tool, risk, target) =>
      if risk == RiskOf(tool) != Low then Some(State(Wanted(tool, target), q.next)) else None
    case Completed(tool, _) => if RiskOf(tool) == Low then Some(State(Idle, q.next)) else None
    case _ => None
  }

  function Next(w: World, q: State, e: Entry): Option<State> {
    match q.phase
    case Idle => Begin(q, e)
    case Wanted(tool, target) =>
      if e.Card? && e.id == q.next && e.tool == tool && e.risk == RiskOf(tool) && e.target == target
      then Some(State(Shown(tool, target, e.id), q.next + 1)) else None
    case Shown(tool, target, id) =>
      if e == Approved(tool, id) && w.answers(id) == Some(true) then Some(State(Cleared(tool, target), q.next))
      else if e == Denied(tool, id) && w.answers(id) != Some(true) then Some(State(Idle, q.next))
      else None
    case Cleared(tool, target) =>
      if e.Sent? && tool == SEND && target == ShownAccounts(w, e.from, e.to) then Some(State(Transferred, q.next))
      else if tool == SEND then Begin(q, e)
      else if e.Completed? && e.tool == tool then Some(State(Idle, q.next))
      else None
    case Transferred => if e.Completed? && e.tool == SEND then Some(State(Idle, q.next)) else None
  }

  function Read(w: World, q: State, trace: seq<Entry>): Option<State> {
    if trace == [] then Some(q)
    else
      match Read(w, q, trace[..|trace| - 1])
      case None => None
      case Some(q') => Next(w, q', trace[|trace| - 1])
  }

  lemma {:induction false} ReadConcat(w: World, q: State, a: seq<Entry>, b: seq<Entry>)
    requires Read(w, q, a).Some?
    ensures Read(w, q, a + b) == Read(w, Read(w, q, a).value, b)
    decreases |b|
  {
    if b == [] {
      assert a + b == a;
    } else {
      ReadConcat(w, q, a, b[..|b| - 1]);
      assert (a + b)[..|a + b| - 1] == a + b[..|b| - 1];
    }
  }

  /** No call is open: the last one is over, or was a transfer that was approved and then gave up. */
  predicate Between(q: State) { q.phase.Idle? || (q.phase.Cleared? && q.phase.tool == SEND) }

  lemma ReadOne(w: World, q: State, a: seq<Entry>, e: Entry)
    requires Read(w, q, a).Some?
    ensures Read(w, q, a + [e]) == Next(w, Read(w, q, a).value, e)
  {}

  lemma RequestIsRead(w: World, q: State, s: Situation, plan: (string, string))
    requires Between(q) && RiskOf(s.call.name) != Low
    ensures Read(w, q, RequestTrace(w, s, q.next, plan))
         == Some(State(
                   if w.answers(q.next) == Some(true) then Cleared(s.call.name, TargetOf(w, s.call, plan)) else Idle,
                   q.next + 1))
  {
    var tool, t := s.call.name, RequestTrace(w, s, q.next, plan);
    var target := TargetOf(w, s.call, plan);
    var wanted, shown := State(Wanted(tool, target), q.next), State(Shown(tool, target, q.next), q.next + 1);
    ReadThree(w, q, t[0], t[1], t[2], wanted, shown);
  }

  lemma ReadThree(w: World, q: State, a: Entry, b: Entry, c: Entry, q1: State, q2: State)
    requires Next(w, q, a) == Some(q1) && Next(w, q1, b) == Some(q2)
    ensures Read(w, q, [a, b, c]) == Next(w, q2, c)
  {
    ReadOne(w, q, [], a);
    ReadOne(w, q, [a], b);
    ReadOne(w, q, [a, b], c);
    assert [] + [a] == [a] && [a] + [b] == [a, b] && [a, b] + [c] == [a, b, c];
  }

  /** The tool is only performed when it needs no approval, or has just been cleared. */
  ghost predicate Ready(w: World, q: State, s: Situation, plan: (string, string)) {
    if RiskOf(s.call.name) == Low then Between(q) else q.phase == Cleared(s.call.name, TargetOf(w, s.call, plan))
  }

  lemma ReadTwo(w: World, q: State, a: Entry, b: Entry, q1: State)
    requires Next(w, q, a) == Some(q1)
    ensures Read(w, q, [a]) == Some(q1) && Read(w, q, [a, b]) == Next(w, q1, b)
  {
    ReadOne(w, q, [], a);
    ReadOne(w, q, [a], b);
    assert [] + [a] == [a] && [a] + [b] == [a, b];
  }

  /** The call is over, or gave up, and no number was used. */
  predicate Over(q: State, q': Option<State>) { q'.Some? && Between(q'.value) && q'.value.next == q.next }

  lemma TransferIsRead(w: World, q: State, s: Situation, plan: (string, string))
    requires s.call.name == SEND && q.phase == Cleared(SEND, TargetOf(w, s.call, plan))
    ensures Over(q, Read(w, q, Perform(w, s, plan).trace))
  {
    if !AmountUnusable(w, s.call) {
      var t := Perform(w, s, plan).trace;
      ReadTwo(w, q, t[0], t[1], State(Transferred, q.next));
      assert t == [t[0], t[1]];
    }
  }

  lemma CompletionIsRead(w: World, q: State, s: Situation, t: seq<Entry>)
    requires s.call.name != SEND && |t| == 1 && t[0].Completed? && t[0].tool == s.call.name
    requires if RiskOf(s.call.name) == Low then Between(q) else q.phase.Cleared? && q.phase.tool == s.call.name
    ensures Over(q, Read(w, q, t))
  {
    ReadTwo(w, q, t[0], t[0], State(Idle, q.next));
    assert t == [t[0]];
  }

  lemma PerformIsRead(w: World, q: State, s: Situation, plan: (string, string))
    requires Ready(w, q, s, plan)
    ensures Over(q, Read(w, q, Perform(w, s, plan).trace))
  {
    var t := Perform(w, s, plan).trace;
    if s.call.name == SEND {
      TransferIsRead(w, q, s, plan);
    } else if t != [] {
      CompletionIsRead(w, q, s, t);
    } else {
      SilentReadIsLow(w, s, plan);
    }
  }

  lemma SilentReadIsLow(w: World, s: Situation, plan: (string, string))
    requires s.call.name != SEND && Perform(w, s, plan).trace == []
    ensures RiskOf(s.call.name) == Low
  {}

  lemma CallIsRead(w: World, q: State, s: Situation)
    requires Between(q)
    ensures var a, q' := Try(w, s, q.next), Read(w, q, Try(w, s, q.next).trace);
            q'.Some? && Between(q'.value) && q'.value.next == q.next + if a.asked then 1 else 0
  {
    var settled := Settled(w, s);
    if s.allowed && settled.Ok? {
      if RiskOf(s.call.name) == Low {
        PerformIsRead(w, q, s, settled.value);
      } else {
        var request := RequestTrace(w, s, q.next, settled.value);
        RequestIsRead(w, q, s, settled.value);
        if w.answers(q.next) == Some(true) {
          var cleared := Read(w, q, request).value;
          PerformIsRead(w, cleared, s, settled.value);
          ReadConcat(w, q, request, Perform(w, s, settled.value).trace);
        }
      }
    }
  }

  const START := State(Idle, 0)

  /** Every run leaves a trace of the language, with a fresh number for each request. */
  lemma {:induction false} RunIsRead(w: World, calls: seq<Situation>)
    ensures var l := RunAll(w, calls);
            && Read(w, START, l.trace).Some?
            && Between(Read(w, START, l.trace).value)
            && Read(w, START, l.trace).value.next == l.asked
  {
    if calls != [] {
      RunIsRead(w, calls[..|calls| - 1]);
      var before := RunAll(w, calls[..|calls| - 1]);
      var q := Read(w, START, before.trace).value;
      CallIsRead(w, q, calls[|calls| - 1]);
      ReadConcat(w, START, before.trace, Try(w, calls[|calls| - 1], before.asked).trace);
    }
  }

  /** A trace that is cut short is still of the language. */
  lemma {:induction false} CutIsRead(w: World, q: State, trace: seq<Entry>, n: nat)
    requires Read(w, q, trace).Some? && n <= |trace|
    ensures Read(w, q, trace[..n]).Some?
    decreases |trace|
  {
    if n == |trace| {
      assert trace[..n] == trace;
    } else {
      CutIsRead(w, q, trace[..|trace| - 1], n);
      assert trace[..|trace| - 1][..n] == trace[..n];
    }
  }

  // ---------- what the language rules out ----------

  /** What the state remembers is what the end of the trace says. */
  ghost predicate Remembers(w: World, trace: seq<Entry>, q: State) {
    match q.phase
    case Idle => true
    case Wanted(tool, target) => |trace| >= 1 && trace[|trace| - 1].Requested? && trace[|trace| - 1].target == target
    case Shown(tool, target, id) => CardAt(trace, |trace| - 1, tool, target, id) && id < q.next
    case Cleared(tool, target) => ClearedAt(w, trace, |trace| - 1, tool, target)
    case Transferred => |trace| >= 1 && trace[|trace| - 1].Sent?
  }

  ghost predicate CardAt(trace: seq<Entry>, p: int, tool: string, target: string, id: nat) {
    0 <= p < |trace| && trace[p].Card? && trace[p].tool == tool && trace[p].target == target && trace[p].id == id
  }

  ghost predicate ClearedAt(w: World, trace: seq<Entry>, p: int, tool: string, target: string) {
    && 1 <= p < |trace|
    && trace[p].Approved?
    && trace[p].tool == tool
    && w.answers(trace[p].id) == Some(true)
    && CardAt(trace, p - 1, tool, target, trace[p].id)
  }

  lemma {:induction false} StateRemembers(w: World, trace: seq<Entry>)
    requires Read(w, START, trace).Some?
    ensures Remembers(w, trace, Read(w, START, trace).value)
  {
    if trace != [] {
      StateRemembers(w, trace[..|trace| - 1]);
    }
  }

  /**
   In any trace of the language, cut short or not, a transfer comes right after an approval, and that right after the
   card that showed its two accounts.
   */
  lemma NoSendWithoutApproval(w: World, trace: seq<Entry>, p: nat)
    requires Read(w, START, trace).Some? && p < |trace| && trace[p].Sent?
    ensures ClearedAt(w, trace, p - 1, SEND, ShownAccounts(w, trace[p].from, trace[p].to))
  {
    CutIsRead(w, START, trace, p + 1);
    LastStep(w, trace, p);
    StateRemembers(w, trace[..p]);
    StillCleared(w, trace, p, SEND, ShownAccounts(w, trace[p].from, trace[p].to));
  }

  lemma StillCleared(w: World, trace: seq<Entry>, p: nat, tool: string, target: string)
    requires p <= |trace| && ClearedAt(w, trace[..p], p - 1, tool, target)
    ensures ClearedAt(w, trace, p - 1, tool, target)
  {}

  lemma LastStep(w: World, trace: seq<Entry>, p: nat)
    requires p < |trace| && Read(w, START, trace[..p + 1]).Some? && trace[p].Sent?
    ensures Read(w, START, trace[..p]).Some?
    ensures Read(w, START, trace[..p]).value.phase == Cleared(SEND, ShownAccounts(w, trace[p].from, trace[p].to))
  {
    assert trace[..p + 1][..p] == trace[..p];
  }

  /** Request numbers count up. */
  lemma {:induction false} CardsCount(w: World, trace: seq<Entry>, i: nat)
    requires Read(w, START, trace).Some? && i < |trace| && trace[i].Card?
    ensures trace[i].id < Read(w, START, trace).value.next
    ensures forall j :: i < j < |trace| && trace[j].Card? ==> trace[i].id < trace[j].id
    decreases |trace|
  {
    if i < |trace| - 1 {
      CardsCount(w, trace[..|trace| - 1], i);
    }
  }

  /** Each transfer has an approval of its own. */
  lemma ApprovalsAreSpentOnce(w: World, trace: seq<Entry>, p: nat, p': nat)
    requires Read(w, START, trace).Some? && p < p' < |trace| && trace[p].Sent? && trace[p'].Sent?
    ensures p - 1 >= 0 && trace[p - 1].Approved? && trace[p' - 1].Approved? && trace[p - 1].id < trace[p' - 1].id
  {
    NoSendWithoutApproval(w, trace, p);
    NoSendWithoutApproval(w, trace, p');
    CardsCount(w, trace, p - 2);
  }
}
