/** `src/cemaf/agents/identity.py`: spawn identity and the human-readable alias. */
module Identity {
  import opened Sequences
  import opened Text

  type Uuid = nat
  type Time = int

  datatype Status = Queued | Running | Waiting | Completed | Failed | Cancelled

  datatype AgentInstance = AgentInstance(
    instanceId: Uuid, agentId: string, displayName: string, capabilities: set<string>,
    taskId: string, runId: string, status: Status, createdAt: Time, attemptId: string,
    tenantId: Option<string>, projectId: Option<string>, nodeId: Option<string>,
    councilMemberSlot: Option<string>, parentInstanceId: Option<Uuid>,
    terminalAt: Option<Time>, replacesId: Option<Uuid>)
  {
    /** Everything a lifecycle transition has to leave alone. */
    function Identity(): AgentInstance {
      this.(status := Queued, attemptId := "", terminalAt := None)
    }
  }

  function FormatDisplayName(agentId: string, ordinal: nat): string {
    agentId + "-" + Decimal(ordinal)
  }

  /** The alias read back by splitting at its last '-', as `rsplit("-", 1)` does. */
  function ParseDisplayName(name: string): Option<(string, nat)> {
    if name == [] then None
    else if name[|name| - 1] == '-' then Some((name[..|name| - 1], 0))
    else if !IsDigit(name[|name| - 1]) then None
    else
      match ParseDisplayName(name[..|name| - 1])
      case None => None
      case Some((agentId, n)) => Some((agentId, 10 * n + DigitValue(name[|name| - 1])))
  }

  lemma {:induction false} ParseDigits(agentId: string, digits: string)
    requires forall c :: c in digits ==> IsDigit(c)
    ensures ParseDisplayName(agentId + "-" + digits) == Some((agentId, FromDecimal(digits)))
  {
    var name := agentId + "-" + digits;
    if digits == [] {
      assert name[..|name| - 1] == agentId;
    } else {
      var d := digits[..|digits| - 1];
      assert digits[|digits| - 1] in digits;
      assert name[..|name| - 1] == agentId + "-" + d;
      ParseDigits(agentId, d);
    }
  }

  /** An alias determines its agent definition and its ordinal, whatever characters the id has. */
  lemma DisplayNameRoundTrip(agentId: string, ordinal: nat)
    ensures ParseDisplayName(FormatDisplayName(agentId, ordinal)) == Some((agentId, ordinal))
  {
    ParseDigits(agentId, Decimal(ordinal));
    DecimalRoundTrip(ordinal);
  }

  lemma DisplayNameInjective(a: string, m: nat, b: string, n: nat)
    requires FormatDisplayName(a, m) == FormatDisplayName(b, n)
    ensures a == b && m == n
  {
    DisplayNameRoundTrip(a, m);
    DisplayNameRoundTrip(b, n);
  }
}
