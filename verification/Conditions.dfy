/**
 Status conditions as stored in metav1.Condition lists, with the two helpers every
 controller path relies on: first-match lookup by type and preservation of the
 transition time. The names the operator itself writes are enumerated; any other
 condition type or reason a list may hold is carried by its text.
 */
module Conditions {
  import opened Wrappers

  datatype Status = StatusTrue | StatusFalse | StatusUnknown

  datatype ConditionType =
    | Accepted | Available | Verified | GatewayRegistered | NetworkPolicyRestricted | PolicyEnforced
    | Registered
    | Ready
    | OtherType(name: string)

  datatype Reason =
    | Valid | Invalid
    | WorkloadAvailable | ConfigurationInvalid | WorkloadUnavailable | ScaledToZero | Initializing
    | HandshakeVerified | NotVerified | EndpointUnavailable | AuthSkipped
    | IsGatewayRegistered | GatewayNotRegistered | BindingNotFound
    | MCPEndpointUnavailable
    | OtherReason(text: string)

  datatype Condition = Condition(
    ctype: ConditionType,
    status: Status,
    reason: Reason,
    message: string,
    observedGeneration: int,
    lastTransitionTime: int)

  /** meta.FindStatusCondition: the first condition of the given type. */
  function Find(cs: seq<Condition>, t: ConditionType): (r: Option<Condition>)
    ensures r.Some? ==> r.value.ctype == t
  {
    if cs == [] then None
    else if cs[0].ctype == t then Some(cs[0])
    else Find(cs[1..], t)
  }

  ghost predicate HasType(cs: seq<Condition>, t: ConditionType) {
    exists i :: 0 <= i < |cs| && cs[i].ctype == t
  }

  /** The key of the listType=map condition list is the type. */
  ghost predicate UniqueTypes(cs: seq<Condition>) {
    forall i, j :: 0 <= i < j < |cs| ==> cs[i].ctype != cs[j].ctype
  }

  /** preserveLastTransitionTime: an unchanged status keeps the time already stored. */
  function Preserved(c: Condition, existing: seq<Condition>): Condition {
    var prev := Find(existing, c.ctype);
    if prev.Some? && prev.value.status == c.status
    then c.(lastTransitionTime := prev.value.lastTransitionTime)
    else c
  }

  lemma {:induction false} FindMember(cs: seq<Condition>, t: ConditionType)
    ensures Find(cs, t).Some? <==> HasType(cs, t)
    ensures Find(cs, t).Some? ==> Find(cs, t).value in cs
  {
    if cs != [] {
      FindMember(cs[1..], t);
      if HasType(cs, t) && cs[0].ctype != t {
        var i :| 0 <= i < |cs| && cs[i].ctype == t;
        assert cs[1..][i - 1].ctype == t;
      }
      if HasType(cs[1..], t) {
        var i :| 0 <= i < |cs[1..]| && cs[1..][i].ctype == t;
        assert cs[i + 1].ctype == t;
      }
    }
  }

  /** In a list with one condition per type, lookup returns the member itself. */
  lemma {:induction false} FindUnique(cs: seq<Condition>, i: nat)
    requires UniqueTypes(cs) && i < |cs|
    ensures Find(cs, cs[i].ctype) == Some(cs[i])
  {
    if i > 0 {
      FindUnique(cs[1..], i - 1);
    }
  }
}
