/** The deterministic recovery authorization decision. */
module Policy {
  import opened Text
  import opened Contract

  datatype Verdict = NoVerdict | Allow | AwaitApproval | Deny

  datatype Reason =
    | NoReason
    | Allowed
    | ApprovalRequired
    | UnregisteredRunbook
    | ForgedDigest
    | TargetMismatch
    | ActionInvalid
    | AnalysisUnavailable
    | AnalysisMismatch
    | PreconditionFailed
    | CooldownActive
    | RetryExhausted
    | StabilizationInvalid
    | ApprovalExpired
    | ApprovalRevoked
    | ApprovalDenied
    | InvalidPolicy

  datatype RegisteredRunbook = RegisteredRunbook(runbook: Runbook, targetID: string, analysisRequired: bool)

  datatype Snapshot = Snapshot(runbooks: seq<RegisteredRunbook>, approvers: seq<string>)

  datatype Input = Input(
    runbookID: string, runbookDigest: string, targetID: string, actionIndex: int, commandID: string,
    analysisAvailable: bool, candidates: seq<string>, preconditions: map<string, bool>,
    lastAttemptAt: Time, now: Time, attemptCount: int,
    approval: Option<Approval>, approvalRevoked: bool)

  datatype Decision = Decision(verdict: Verdict, reason: Reason)

  function Denied(reason: Reason): Decision {
    Decision(Deny, reason)
  }

  /* ---- What a well-formed snapshot is ---- */

  predicate UniqueNonEmpty(values: seq<string>) {
    "" !in values && Distinct(values)
  }

  predicate ValidAction(a: TypedAction) {
    && (a.actionType == ContainerRestart || a.actionType == ComposeServiceRestart)
    && a.targetSelector != ""
    && a.stopTimeout > 0
    && a.cooldown >= 0
  }

  predicate ValidRegistration(r: RegisteredRunbook) {
    && r.targetID != ""
    && r.runbook.schema == V1
    && r.runbook.runbookID != ""
    && r.runbook.digest != ""
    && r.runbook.typedActions != []
    && r.runbook.maxAttempts >= 1
    && r.runbook.riskTier != OtherRisk
    && forall a :: a in r.runbook.typedActions ==> ValidAction(a)
  }

  function RunbookIDs(runbooks: seq<RegisteredRunbook>): seq<string> {
    seq(|runbooks|, i requires 0 <= i < |runbooks| => runbooks[i].runbook.runbookID)
  }

  predicate ValidSnapshot(s: Snapshot) {
    && s.runbooks != []
    && (forall r :: r in s.runbooks ==> ValidRegistration(r))
    && Distinct(RunbookIDs(s.runbooks))
    && UniqueNonEmpty(s.approvers)
  }

  /* ---- The decision ---- */

  /** The first registration of `runbookID`. */
  function FindRunbook(runbooks: seq<RegisteredRunbook>, runbookID: string): Option<RegisteredRunbook> {
    if runbooks == [] then None
    else if runbooks[0].runbook.runbookID == runbookID then Some(runbooks[0])
    else FindRunbook(runbooks[1..], runbookID)
  }

  predicate PreconditionsMet(required: seq<string>, observed: map<string, bool>) {
    UniqueNonEmpty(required) && forall c :: c in required ==> c in observed && observed[c]
  }

  predicate CooldownElapsed(cooldown: int, previous: Time, now: Time) {
    if cooldown < 0 || previous == ZERO_TIME then cooldown >= 0
    else now != ZERO_TIME && now >= previous && now - previous >= cooldown
  }

  function ApprovalDecisionFor(approvers: seq<string>, input: Input): Decision {
    match input.approval
    case None => Decision(NoVerdict, NoReason)
    case Some(a) =>
      if input.approvalRevoked || a.approver !in approvers then Denied(ApprovalRevoked)
      else if a.decision == Refused then Denied(ApprovalDenied)
      else if a.schema != V1 || a.approvalID == "" || a.decision != Granted || a.commandID != input.commandID
        || a.createdAt == ZERO_TIME || a.expiresAt == ZERO_TIME || a.expiresAt <= a.createdAt
        || input.now == ZERO_TIME || input.now >= a.expiresAt then Denied(ApprovalExpired)
      else Decision(Allow, Allowed)
  }

  predicate NeedsApproval(r: Runbook) {
    r.riskTier != RiskLow || r.approvalRequired || !r.autoExecute
  }

  function Evaluate(snapshot: Snapshot, input: Input): Decision {
    if !ValidSnapshot(snapshot) || input.runbookID == "" || input.runbookDigest == ""
      || input.targetID == "" || input.commandID == "" then Denied(InvalidPolicy)
    else match FindRunbook(snapshot.runbooks, input.runbookID)
      case None => Denied(UnregisteredRunbook)
      case Some(r) => EvaluateRegistered(r, snapshot.approvers, input)
  }

  function EvaluateRegistered(r: RegisteredRunbook, approvers: seq<string>, input: Input): Decision {
    var runbook := r.runbook;
    if input.runbookDigest != runbook.digest then Denied(ForgedDigest)
    else if input.targetID != r.targetID then Denied(TargetMismatch)
    else if input.actionIndex < 0 || input.actionIndex >= |runbook.typedActions| then Denied(ActionInvalid)
    else if r.analysisRequired && !input.analysisAvailable then Denied(AnalysisUnavailable)
    else if r.analysisRequired && runbook.runbookID !in input.candidates then Denied(AnalysisMismatch)
    else if !PreconditionsMet(runbook.preconditions, input.preconditions) then Denied(PreconditionFailed)
    else if !CooldownElapsed(runbook.typedActions[input.actionIndex].cooldown, input.lastAttemptAt, input.now) then
      Denied(CooldownActive)
    else if input.attemptCount < 0 || input.attemptCount >= runbook.maxAttempts then Denied(RetryExhausted)
    else if runbook.recoverySamples < 1 || runbook.window <= 0 then Denied(StabilizationInvalid)
    else
      var approval := ApprovalDecisionFor(approvers, input);
      if approval.reason != NoReason then approval
      else if NeedsApproval(runbook) then Decision(AwaitApproval, ApprovalRequired)
      else Decision(Allow, Allowed)
  }

  /* ---- The conditions, one by one and independent of order ---- */

  /** Everything but the approval is in place. */
  predicate Runnable(r: RegisteredRunbook, input: Input) {
    && input.runbookDigest == r.runbook.digest
    && input.targetID == r.targetID
    && 0 <= input.actionIndex < |r.runbook.typedActions|
    && (r.analysisRequired ==> input.analysisAvailable && input.runbookID in input.candidates)
    && "" !in r.runbook.preconditions && Distinct(r.runbook.preconditions)
    && (forall c :: c in r.runbook.preconditions ==> c in input.preconditions && input.preconditions[c])
    && (var cooldown := r.runbook.typedActions[input.actionIndex].cooldown;
        && cooldown >= 0
        && (input.lastAttemptAt != ZERO_TIME ==> input.now != ZERO_TIME && input.now >= input.lastAttemptAt + cooldown))
    && 0 <= input.attemptCount < r.runbook.maxAttempts
    && r.runbook.recoverySamples >= 1
    && r.runbook.window > 0
  }

  /** A live, well-formed grant for this very command by an authorized approver. */
  predicate LiveGrant(a: Approval, approvers: set<string>, commandID: string, now: Time) {
    && a.schema == V1
    && a.approvalID != ""
    && a.decision == Granted
    && a.commandID == commandID
    && a.approver in approvers
    && a.createdAt != ZERO_TIME
    && a.createdAt < a.expiresAt
    && a.expiresAt != ZERO_TIME
    && now != ZERO_TIME
    && now < a.expiresAt
  }

  function Approvers(s: Snapshot): set<string> {
    set a | a in s.approvers
  }

  predicate ApprovalSatisfied(r: RegisteredRunbook, approvers: set<string>, input: Input) {
    match input.approval
    case None => r.runbook.riskTier == RiskLow && r.runbook.autoExecute && !r.runbook.approvalRequired
    case Some(a) => !input.approvalRevoked && LiveGrant(a, approvers, input.commandID, input.now)
  }

  predicate NamesEverything(input: Input) {
    input.runbookID != "" && input.runbookDigest != "" && input.targetID != "" && input.commandID != ""
  }

  /** The authorization policy as a list of conditions over an unordered registry. */
  ghost predicate Authorized(s: Snapshot, input: Input) {
    && ValidSnapshot(s)
    && NamesEverything(input)
    && exists r :: r in s.runbooks && r.runbook.runbookID == input.runbookID
                   && Runnable(r, input) && ApprovalSatisfied(r, Approvers(s), input)
  }

  lemma {:induction false} FindRunbookFinds(runbooks: seq<RegisteredRunbook>, runbookID: string)
    ensures match FindRunbook(runbooks, runbookID)
            case None => forall r :: r in runbooks ==> r.runbook.runbookID != runbookID
            case Some(r) => r in runbooks && r.runbook.runbookID == runbookID
  {
    if runbooks != [] && runbooks[0].runbook.runbookID != runbookID {
      FindRunbookFinds(runbooks[1..], runbookID);
      assert runbooks == [runbooks[0]] + runbooks[1..];
    }
  }

  lemma SameIDSameRunbook(runbooks: seq<RegisteredRunbook>, a: RegisteredRunbook, b: RegisteredRunbook)
    requires Distinct(RunbookIDs(runbooks))
    requires a in runbooks && b in runbooks && a.runbook.runbookID == b.runbook.runbookID
    ensures a == b
  {
    var i :| 0 <= i < |runbooks| && runbooks[i] == a;
    var j :| 0 <= j < |runbooks| && runbooks[j] == b;
    var ids := RunbookIDs(runbooks);
    assert ids[i] == ids[j];
  }

  /** In a valid snapshot the search order does not matter. */
  lemma FindRunbookUnique(s: Snapshot, r: RegisteredRunbook)
    requires ValidSnapshot(s) && r in s.runbooks
    ensures FindRunbook(s.runbooks, r.runbook.runbookID) == Some(r)
  {
    FindRunbookFinds(s.runbooks, r.runbook.runbookID);
    var found := FindRunbook(s.runbooks, r.runbook.runbookID);
    SameIDSameRunbook(s.runbooks, found.value, r);
  }

  /** `Evaluate` allows exactly the authorized actions. */
  lemma EvaluateAllowsIff(s: Snapshot, input: Input)
    ensures Evaluate(s, input).verdict == Allow <==> Authorized(s, input)
  {
    FindRunbookFinds(s.runbooks, input.runbookID);
    if Authorized(s, input) {
      var r :| r in s.runbooks && r.runbook.runbookID == input.runbookID
               && Runnable(r, input) && ApprovalSatisfied(r, Approvers(s), input);
      FindRunbookUnique(s, r);
      assert EvaluateRegistered(r, s.approvers, input).verdict == Allow;
    }
  }

  /** It waits exactly when an input without an approval is in order but for a runbook
      that is of medium or high risk, asks for approval, or is not automatic. */
  lemma EvaluateAwaitsIff(s: Snapshot, input: Input)
    ensures Evaluate(s, input).verdict == AwaitApproval <==>
            && ValidSnapshot(s) && NamesEverything(input) && input.approval == None
            && exists r :: r in s.runbooks && r.runbook.runbookID == input.runbookID && Runnable(r, input)
                           && (r.runbook.riskTier != RiskLow || r.runbook.approvalRequired || !r.runbook.autoExecute)
    ensures Evaluate(s, input).verdict != NoVerdict
  {
    FindRunbookFinds(s.runbooks, input.runbookID);
    if ValidSnapshot(s) && NamesEverything(input) && input.approval == None {
      forall r | r in s.runbooks && r.runbook.runbookID == input.runbookID
        ensures FindRunbook(s.runbooks, input.runbookID) == Some(r)
      {
        FindRunbookUnique(s, r);
      }
    }
    hide ValidSnapshot, FindRunbook;
  }

  /* ---- Order independence ---- */

  function Elements(values: seq<string>): set<string> {
    set v | v in values
  }

  lemma DistinctSnoc(init: seq<string>, last: string)
    ensures Distinct(init + [last]) <==> Distinct(init) && last !in init
  {
    var all := init + [last];
    if Distinct(all) {
      assert forall i :: 0 <= i < |init| ==> all[i] == init[i] && all[i] != all[|init|];
    }
  }

  lemma {:induction false} DistinctIffCardinality(values: seq<string>)
    ensures |Elements(values)| <= |values|
    ensures Distinct(values) <==> |Elements(values)| == |values|
  {
    if values == [] {
      assert Elements(values) == {};
    } else {
      var init, last := values[..|values| - 1], values[|values| - 1];
      DistinctIffCardinality(init);
      assert values == init + [last];
      assert Elements(values) == Elements(init) + {last};
      if last in init {
        assert Elements(values) == Elements(init);
        DistinctSnoc(init, last);
      } else {
        DistinctSnoc(init, last);
      }
    }
  }

  lemma DistinctOrderFree(a: seq<string>, b: seq<string>)
    requires Elements(a) == Elements(b) && |a| == |b|
    ensures Distinct(a) <==> Distinct(b)
  {
    DistinctIffCardinality(a);
    DistinctIffCardinality(b);
  }

  /** The same registrations and approvers in another order. */
  ghost predicate Permuted(a: Snapshot, b: Snapshot) {
    multiset(a.runbooks) == multiset(b.runbooks) && multiset(a.approvers) == multiset(b.approvers)
  }

  lemma PermutedElements<T>(a: seq<T>, b: seq<T>)
    requires multiset(a) == multiset(b)
    ensures |a| == |b|
    ensures forall x :: x in a <==> x in b
  {
    assert |multiset(a)| == |a| && |multiset(b)| == |b|;
    forall x ensures x in a <==> x in b {
      assert x in a <==> x in multiset(a);
      assert x in b <==> x in multiset(b);
    }
  }

  lemma RunbookIDsElements(runbooks: seq<RegisteredRunbook>, id: string)
    ensures id in RunbookIDs(runbooks) <==> exists r :: r in runbooks && r.runbook.runbookID == id
  {
    var ids := RunbookIDs(runbooks);
    if id in ids {
      var i :| 0 <= i < |ids| && ids[i] == id;
      assert runbooks[i] in runbooks;
    }
    if r :| r in runbooks && r.runbook.runbookID == id {
      var i :| 0 <= i < |runbooks| && runbooks[i] == r;
      assert ids[i] == id;
    }
  }

  lemma ValidSnapshotPermuted(a: Snapshot, b: Snapshot)
    requires Permuted(a, b) && ValidSnapshot(a)
    ensures ValidSnapshot(b)
  {
    PermutedElements(a.runbooks, b.runbooks);
    PermutedElements(a.approvers, b.approvers);
    var idsA, idsB := RunbookIDs(a.runbooks), RunbookIDs(b.runbooks);
    forall id ensures id in idsA <==> id in idsB {
      RunbookIDsElements(a.runbooks, id);
      RunbookIDsElements(b.runbooks, id);
    }
    assert Elements(idsA) == Elements(idsB);
    DistinctOrderFree(idsA, idsB);
    assert Elements(a.approvers) == Elements(b.approvers);
    DistinctOrderFree(a.approvers, b.approvers);
  }

  /** Reordering runbooks, approvers or analysis candidates never changes the
      decision, reason included. */
  lemma EvaluateOrderFree(a: Snapshot, b: Snapshot, input: Input, candidates: seq<string>)
    requires Permuted(a, b)
    requires multiset(input.candidates) == multiset(candidates)
    ensures Evaluate(a, input) == Evaluate(b, input.(candidates := candidates))
  {
    PermutedElements(a.runbooks, b.runbooks);
    PermutedElements(a.approvers, b.approvers);
    PermutedElements(input.candidates, candidates);
    if ValidSnapshot(b) { ValidSnapshotPermuted(b, a); }
    if ValidSnapshot(a) {
      ValidSnapshotPermuted(a, b);
      FindRunbookFinds(a.runbooks, input.runbookID);
      FindRunbookFinds(b.runbooks, input.runbookID);
      match FindRunbook(a.runbooks, input.runbookID)
      case None =>
      case Some(r) => FindRunbookUnique(b, r);
    }
  }

  /* ---- Time ---- */

  /** Once allowed, an action stays allowed until its approval expires, and not
      a moment longer. */
  lemma AllowPersistsUntilExpiry(s: Snapshot, input: Input, later: Time)
    requires Evaluate(s, input).verdict == Allow
    requires input.now <= later && later != ZERO_TIME
    ensures Evaluate(s, input.(now := later)).verdict == Allow
       <==> (input.approval.Some? ==> later < input.approval.value.expiresAt)
  {
    FindRunbookFinds(s.runbooks, input.runbookID);
    var r := FindRunbook(s.runbooks, input.runbookID).value;
    assert Runnable(r, input.(now := later));
  }

  /** An allow comes with the live grant of an authorized approver for this command,
      or else the registered runbook is low risk, automatic, and asks for none. */
  lemma AllowNeedsGrant(s: Snapshot, input: Input, r: RegisteredRunbook)
    requires Evaluate(s, input).verdict == Allow
    requires r in s.runbooks && r.runbook.runbookID == input.runbookID
    ensures || (r.runbook.riskTier == RiskLow && r.runbook.autoExecute && !r.runbook.approvalRequired)
            || (&& input.approval.Some? && !input.approvalRevoked
                && LiveGrant(input.approval.value, Approvers(s), input.commandID, input.now))
    ensures input.approval == None ==>
              r.runbook.riskTier == RiskLow && r.runbook.autoExecute && !r.runbook.approvalRequired
  {
    EvaluateAllowsIff(s, input);
    FindRunbookUnique(s, r);
    hide ValidSnapshot, FindRunbook, Evaluate;
    var other :| other in s.runbooks && other.runbook.runbookID == input.runbookID
                 && Runnable(other, input) && ApprovalSatisfied(other, Approvers(s), input);
    FindRunbookUnique(s, other);
  }

  /** No action is allowed again before its cooldown has passed since the last
      attempt. */
  lemma AllowRespectsCooldown(s: Snapshot, input: Input, r: RegisteredRunbook)
    requires Evaluate(s, input).verdict == Allow && input.lastAttemptAt != ZERO_TIME
    requires r in s.runbooks && r.runbook.runbookID == input.runbookID
    ensures 0 <= input.actionIndex < |r.runbook.typedActions|
    ensures input.now >= input.lastAttemptAt + r.runbook.typedActions[input.actionIndex].cooldown
  {
    EvaluateAllowsIff(s, input);
    FindRunbookUnique(s, r);
    hide ValidSnapshot, FindRunbook, Evaluate;
    var other :| other in s.runbooks && other.runbook.runbookID == input.runbookID
                 && Runnable(other, input) && ApprovalSatisfied(other, Approvers(s), input);
    FindRunbookUnique(s, other);
  }

  /** What each denial reason claims about the input, given the registration that
      was found. */
  ghost predicate ReasonHolds(s: Snapshot, input: Input, reason: Reason) {
    match reason
    case InvalidPolicy => !ValidSnapshot(s) || !NamesEverything(input)
    case UnregisteredRunbook => forall r :: r in s.runbooks ==> r.runbook.runbookID != input.runbookID
    case _ =>
      exists r :: r in s.runbooks && r.runbook.runbookID == input.runbookID
                  && RegisteredReasonHolds(s, r, input, reason)
  }

  predicate RegisteredReasonHolds(s: Snapshot, r: RegisteredRunbook, input: Input, reason: Reason) {
    match reason
    case ForgedDigest => input.runbookDigest != r.runbook.digest
    case TargetMismatch => input.targetID != r.targetID
    case ActionInvalid => !(0 <= input.actionIndex < |r.runbook.typedActions|)
    case AnalysisUnavailable => r.analysisRequired && !input.analysisAvailable
    case AnalysisMismatch => r.analysisRequired && input.runbookID !in input.candidates
    case PreconditionFailed =>
      || "" in r.runbook.preconditions || !Distinct(r.runbook.preconditions)
      || !(forall c :: c in r.runbook.preconditions ==> c in input.preconditions && input.preconditions[c])
    case CooldownActive =>
      && 0 <= input.actionIndex < |r.runbook.typedActions|
      && var cooldown := r.runbook.typedActions[input.actionIndex].cooldown;
      && (|| cooldown < 0
          || (&& input.lastAttemptAt != ZERO_TIME
              && (input.now == ZERO_TIME || input.now < input.lastAttemptAt + cooldown)))
    case RetryExhausted => !(0 <= input.attemptCount < r.runbook.maxAttempts)
    case StabilizationInvalid => r.runbook.recoverySamples < 1 || r.runbook.window <= 0
    case ApprovalRevoked =>
      input.approval.Some? && (input.approvalRevoked || input.approval.value.approver !in Approvers(s))
    case ApprovalDenied => input.approval.Some? && input.approval.value.decision == Refused
    case ApprovalExpired =>
      input.approval.Some? && !LiveGrant(input.approval.value, Approvers(s), input.commandID, input.now)
    case _ => false
  }

  /** The order in which the conditions are examined. */
  function Precedence(reason: Reason): nat {
    match reason
    case InvalidPolicy => 0
    case UnregisteredRunbook => 1
    case ForgedDigest => 2
    case TargetMismatch => 3
    case ActionInvalid => 4
    case AnalysisUnavailable => 5
    case AnalysisMismatch => 6
    case PreconditionFailed => 7
    case CooldownActive => 8
    case RetryExhausted => 9
    case StabilizationInvalid => 10
    case ApprovalRevoked => 11
    case ApprovalDenied => 12
    case ApprovalExpired => 13
    case _ => 14
  }

  /** Of all the conditions that fail, a denial names the first. */
  lemma DenialReasonFirst(s: Snapshot, input: Input, other: Reason)
    requires Evaluate(s, input).verdict == Deny && ReasonHolds(s, input, other)
    ensures Precedence(Evaluate(s, input).reason) <= Precedence(other)
  {
    hide ValidSnapshot, FindRunbook, EvaluateRegistered, RegisteredReasonHolds;
    FindRunbookFinds(s.runbooks, input.runbookID);
    if ValidSnapshot(s) && NamesEverything(input) && Precedence(other) > 1 {
      var r :| r in s.runbooks && r.runbook.runbookID == input.runbookID && RegisteredReasonHolds(s, r, input, other);
      FindRunbookUnique(s, r);
      RegisteredFirst(s, r, input, other);
    }
  }

  lemma RegisteredFirst(s: Snapshot, r: RegisteredRunbook, input: Input, other: Reason)
    requires r.runbook.runbookID == input.runbookID && RegisteredReasonHolds(s, r, input, other)
    ensures EvaluateRegistered(r, s.approvers, input).verdict == Deny
    ensures Precedence(EvaluateRegistered(r, s.approvers, input).reason) <= Precedence(other)
  {
  }

  /** A denial never gives a false reason: the condition it names does fail. */
  lemma DenialReasonHolds(s: Snapshot, input: Input)
    requires Evaluate(s, input).verdict == Deny
    ensures ReasonHolds(s, input, Evaluate(s, input).reason)
  {
    FindRunbookFinds(s.runbooks, input.runbookID);
    hide ValidSnapshot, FindRunbook, NeedsApproval;
    var found := FindRunbook(s.runbooks, input.runbookID);
    if ValidSnapshot(s) && NamesEverything(input) && found.Some? {
      assert RegisteredReasonHolds(s, found.value, input, Evaluate(s, input).reason);
    }
  }

  /* ---- The loops ---- */

  function Insert(value: string, sorted: seq<string>): (r: seq<string>)
    requires WeaklySorted(sorted)
    ensures multiset(r) == multiset(sorted) + multiset{value}
    ensures WeaklySorted(r)
  {
    if sorted == [] then [value]
    else if !Less(sorted[0], value) then
      PrependSorted(value, sorted);
      [value] + sorted
    else
      assert sorted == [sorted[0]] + sorted[1..];
      TailSorted(sorted);
      var rest := Insert(value, sorted[1..]);
      InsertedMembers(rest, sorted[1..], value);
      HeadBelowRest(sorted[0], rest, sorted[1..], value);
      [sorted[0]] + rest
  }

  ghost predicate WeaklySorted(values: seq<string>) {
    forall i, j :: 0 <= i < j < |values| ==> !Less(values[j], values[i])
  }

  lemma TailSorted(values: seq<string>)
    requires values != [] && WeaklySorted(values)
    ensures WeaklySorted(values[1..])
  {
    forall i, j | 0 <= i < j < |values[1..]| ensures !Less(values[1..][j], values[1..][i]) {
      assert values[1..][i] == values[i + 1] && values[1..][j] == values[j + 1];
    }
  }

  lemma {:induction false} NotLessTransitive(a: string, b: string, c: string)
    requires !Less(b, a) && !Less(c, b)
    ensures !Less(c, a)
  {
    if Less(c, a) {
      if b == a {
      } else {
        LessTotal(a, b);
        LessTransitive(c, a, b);
      }
    }
  }

  lemma {:induction false} PrependSorted(value: string, sorted: seq<string>)
    requires sorted != [] && WeaklySorted(sorted) && !Less(sorted[0], value)
    ensures WeaklySorted([value] + sorted)
  {
    var r := [value] + sorted;
    forall i, j | 0 <= i < j < |r| ensures !Less(r[j], r[i]) {
      if i == 0 && j > 1 { NotLessTransitive(value, sorted[0], sorted[j - 1]); }
    }
  }

  lemma InsertedMembers(rest: seq<string>, tail: seq<string>, value: string)
    requires multiset(rest) == multiset(tail) + multiset{value}
    ensures forall x :: x in rest ==> x == value || x in tail
  {
    forall x | x in rest ensures x == value || x in tail {
      assert x in multiset(rest);
    }
  }

  lemma {:induction false} HeadBelowRest(head: string, rest: seq<string>, tail: seq<string>, value: string)
    requires WeaklySorted([head] + tail) && Less(head, value) && WeaklySorted(rest)
    requires forall x :: x in rest ==> x == value || x in tail
    ensures WeaklySorted([head] + rest)
  {
    hide Less;
    var r := [head] + rest;
    forall i, j | 0 <= i < j < |r| ensures !Less(r[j], r[i]) {
      if i == 0 {
        assert r[j] in rest;
        if r[j] == value {
          LessAsymmetric(head, value);
        } else {
          assert r[j] in tail;
          var k :| 0 <= k < |tail| && tail[k] == r[j];
          var before := [head] + tail;
          assert before[k + 1] == r[j] && !Less(before[k + 1], before[0]);
        }
      } else {
        assert r[i] == rest[i - 1] && r[j] == rest[j - 1];
      }
    }
  }

  /** `sort.Strings` on a copy. */
  function SortStrings(values: seq<string>): (r: seq<string>)
    ensures multiset(r) == multiset(values)
    ensures WeaklySorted(r)
  {
    if values == [] then []
    else
      assert values == [values[0]] + values[1..];
      Insert(values[0], SortStrings(values[1..]))
  }

  lemma {:induction false} AllBelow(sorted: seq<string>, middle: nat, want: string)
    requires WeaklySorted(sorted) && middle < |sorted| && Less(sorted[middle], want)
    ensures forall i :: 0 <= i <= middle ==> Less(sorted[i], want)
  {
    forall i | 0 <= i < middle ensures Less(sorted[i], want) {
      if sorted[i] != sorted[middle] {
        LessTotal(sorted[i], sorted[middle]);
        LessTransitive(sorted[i], sorted[middle], want);
      }
    }
  }

  lemma {:induction false} NoneBelow(sorted: seq<string>, middle: nat, want: string)
    requires WeaklySorted(sorted) && middle < |sorted| && !Less(sorted[middle], want)
    ensures forall i :: middle <= i < |sorted| ==> !Less(sorted[i], want)
  {
    forall i | middle < i < |sorted| ensures !Less(sorted[i], want) {
      NotLessTransitive(want, sorted[middle], sorted[i]);
    }
  }

  lemma {:induction false} SearchLands(sorted: seq<string>, low: nat, want: string)
    requires WeaklySorted(sorted) && low <= |sorted|
    requires forall i :: 0 <= i < low ==> Less(sorted[i], want)
    requires forall i :: low <= i < |sorted| ==> !Less(sorted[i], want)
    ensures want in sorted <==> low < |sorted| && sorted[low] == want
  {
    if want in sorted {
      var i :| 0 <= i < |sorted| && sorted[i] == want;
      LessIrreflexive(want);
      if sorted[low] != want { LessTotal(sorted[low], want); }
    }
  }

  /** Sort a copy, then binary search: the source's membership test. */
  method Contains(values: seq<string>, want: string) returns (found: bool)
    ensures found <==> want in values
  {
    hide Less, WeaklySorted;
    var sorted := SortStrings(values);
    var low, high := 0, |sorted|;
    while low < high
      invariant 0 <= low <= high <= |sorted|
      invariant forall i :: 0 <= i < low ==> Less(sorted[i], want)
      invariant forall i :: high <= i < |sorted| ==> !Less(sorted[i], want)
    {
      var middle := low + (high - low) / 2;
      if Less(sorted[middle], want) {
        AllBelow(sorted, middle, want);
        low := middle + 1;
      } else {
        NoneBelow(sorted, middle, want);
        high := middle;
      }
    }
    found := low < |sorted| && sorted[low] == want;
    SearchLands(sorted, low, want);
    PermutedElements(sorted, values);
  }

  method CheckUniqueNonEmpty(values: seq<string>) returns (ok: bool)
    ensures ok <==> UniqueNonEmpty(values)
  {
    var seen: set<string> := {};
    for i := 0 to |values|
      invariant seen == Elements(values[..i])
      invariant UniqueNonEmpty(values[..i])
    {
      if values[i] == "" {
        return false;
      }
      if values[i] in seen {
        return false;
      }
      assert values[..i + 1] == values[..i] + [values[i]];
      seen := seen + {values[i]};
    }
    assert values[..|values|] == values;
    ok := true;
  }

  method CheckActions(actions: seq<TypedAction>) returns (ok: bool)
    ensures ok <==> forall a :: a in actions ==> ValidAction(a)
  {
    for i := 0 to |actions|
      invariant forall k :: 0 <= k < i ==> ValidAction(actions[k])
    {
      var action := actions[i];
      if (action.actionType != ContainerRestart && action.actionType != ComposeServiceRestart)
        || action.targetSelector == "" || action.stopTimeout <= 0 || action.cooldown < 0
      {
        assert !ValidAction(actions[i]);
        return false;
      }
    }
    ok := true;
  }

  method CheckSnapshot(s: Snapshot) returns (ok: bool)
    ensures ok <==> ValidSnapshot(s)
  {
    if s.runbooks == [] {
      return false;
    }
    ghost var ids := RunbookIDs(s.runbooks);
    var seen: set<string> := {};
    for i := 0 to |s.runbooks|
      invariant forall k :: 0 <= k < i ==> ValidRegistration(s.runbooks[k])
      invariant seen == Elements(ids[..i])
      invariant forall j, k :: 0 <= j < k < i ==> ids[j] != ids[k]
    {
      var r := s.runbooks[i];
      assert r in s.runbooks;
      if r.targetID == "" || r.runbook.schema != V1 || r.runbook.runbookID == "" || r.runbook.digest == ""
        || r.runbook.typedActions == [] || r.runbook.maxAttempts < 1 || r.runbook.riskTier == OtherRisk
      {
        return false;
      }
      var actionsOk := CheckActions(r.runbook.typedActions);
      if !actionsOk {
        return false;
      }
      if r.runbook.runbookID in seen {
        ghost var j :| 0 <= j < |ids[..i]| && ids[..i][j] == ids[i];
        assert ids[j] == ids[i];
        return false;
      }
      assert ids[..i + 1] == ids[..i] + [ids[i]];
      seen := seen + {r.runbook.runbookID};
    }
    ok := CheckUniqueNonEmpty(s.approvers);
  }

  method CheckPreconditions(required: seq<string>, observed: map<string, bool>) returns (ok: bool)
    ensures ok <==> PreconditionsMet(required, observed)
  {
    var unique := CheckUniqueNonEmpty(required);
    if !unique {
      return false;
    }
    for i := 0 to |required|
      invariant forall k :: 0 <= k < i ==> required[k] in observed && observed[required[k]]
    {
      if required[i] !in observed || !observed[required[i]] {
        return false;
      }
    }
    ok := true;
  }

  /** The loop that looks a runbook up. */
  method RegisteredFor(runbooks: seq<RegisteredRunbook>, runbookID: string) returns (r: Option<RegisteredRunbook>)
    ensures r == FindRunbook(runbooks, runbookID)
  {
    assert runbooks[0..] == runbooks;
    for i := 0 to |runbooks|
      invariant FindRunbook(runbooks, runbookID) == FindRunbook(runbooks[i..], runbookID)
    {
      assert runbooks[i..][1..] == runbooks[i + 1..];
      if runbooks[i].runbook.runbookID == runbookID {
        return Some(runbooks[i]);
      }
    }
    r := None;
  }
}
