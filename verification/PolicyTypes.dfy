/** The vocabulary shared by the policy engine, its two clients and the rollback controller. */
module PolicyTypes {
  import opened Options

  type Pid = int
  type TxId = string
  type Token = string
  type Nanos = int

  datatype ActionType = SigStop | ContainerPause | ApiRouteSwap | TokenChop | CgroupFreeze

  datatype Status = AuthorizedPending | Executed | Completed | Rejected | Expired

  datatype RuleName = SystemBlacklist | UserWhitelist | VelocityCap | PidBoundary

  datatype Intent = Intent(targetPID: Pid, containerID: string, processName: string, actionType: ActionType)

  /** `rejectionReason` is empty in the source exactly when the request was authorised. */
  datatype Record = Record(
    transactionID: TxId,
    timestamp: Nanos,
    expiry: Nanos,
    targetPID: Pid,
    containerID: string,
    processName: string,
    actionType: ActionType,
    status: Status,
    matchedRules: seq<RuleName>,
    historicalCount: nat,
    cooldownSeconds: int,
    rejectionReason: Option<RuleName>)

  ghost predicate NoDuplicates<T>(s: seq<T>) {
    forall i, j :: 0 <= i < j < |s| ==> s[i] != s[j]
  }

  /** Naming an element is what shows the verifier that a choice from the set has a value to choose. */
  ghost function SomeElement<T>(s: set<T>): (x: T)
    requires s != {}
    ensures x in s
  {
    var x :| x in s; x
  }
}
