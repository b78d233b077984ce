/** The connection status record of src/store/connectionStore.ts: the
    module-level `info`, its `setStatus` update and its `getInfo` copy. Dates
    are numbers on an abstract clock; each `new Date()` of an update is a
    parameter, read in order. */
module ConnectionStore {
  import opened Outcomes

  datatype Status = Open | Close | Connecting

  /** The optional `id` argument of `setStatus`: left out (or passed as
      `undefined`), or given, possibly as `null`. */
  datatype IdArg = Omitted | Given(id: Option<string>)

  datatype ConnectionInfo = ConnectionInfo(
    id: Option<string>,
    lastLogin: Option<int>,
    connectedAt: Option<int>,
    status: Status)

  /** The state at module load: closed, with nothing known. */
  const InitialInfo: ConnectionInfo := ConnectionInfo(None, None, None, Close)

  /** `setStatus(status, id)`, where `loginTime` and `connectTime` are the two
      successive `new Date()` readings an `'open'` update takes. */
  function SetStatus(info: ConnectionInfo, status: Status, id: IdArg, loginTime: int, connectTime: int): (r: ConnectionInfo)
    ensures r.status == status
    ensures r.id == (if id.Given? then id.id else info.id)
    ensures status == Open ==> r.lastLogin == Some(loginTime) && r.connectedAt == Some(connectTime)
    ensures status != Open ==> r.lastLogin == info.lastLogin
    ensures status == Close ==> r.connectedAt == None
    ensures status == Connecting ==> r.connectedAt == info.connectedAt
  {
    var withId := info.(status := status, id := if id.Given? then id.id else info.id);
    match status
    case Open => withId.(lastLogin := Some(loginTime), connectedAt := Some(connectTime))
    case Close => withId.(connectedAt := None)
    case Connecting => withId
  }

  /** `getInfo()`: a shallow copy, equal to the record. The two times are
      values here; in the code they are `Date` objects the copy shares with
      the store. */
  function GetInfo(info: ConnectionInfo): (r: ConnectionInfo)
    ensures r == info
  {
    ConnectionInfo(info.id, info.lastLogin, info.connectedAt, info.status)
  }

  // ---------------------------------------------------------------------------
  // Sequences of updates
  // ---------------------------------------------------------------------------

  /** One `setStatus` call with its clock readings. */
  datatype Update = Update(status: Status, id: IdArg, loginTime: int, connectTime: int)

  /** The record after the updates, in order, starting from `info`. */
  function Replay(info: ConnectionInfo, updates: seq<Update>): (r: ConnectionInfo)
    ensures |updates| > 0 ==> r.status == updates[|updates| - 1].status
    decreases |updates|
  {
    if |updates| == 0 then info
    else
      var u := updates[|updates| - 1];
      SetStatus(Replay(info, updates[..|updates| - 1]), u.status, u.id, u.loginTime, u.connectTime)
  }

  /** The id of the last update that gave one, or `fallback` when none did. */
  function LastGivenId(updates: seq<Update>, fallback: Option<string>): Option<string>
    decreases |updates|
  {
    if |updates| == 0 then fallback
    else if updates[|updates| - 1].id.Given? then updates[|updates| - 1].id.id
    else LastGivenId(updates[..|updates| - 1], fallback)
  }

  /** The clock never runs backwards within one update. */
  predicate ClockForward(updates: seq<Update>) {
    forall i :: 0 <= i < |updates| ==> updates[i].loginTime <= updates[i].connectTime
  }

  /** What every reachable record satisfies: a closed connection has no
      connection time, an open one has one, and a connection time comes with
      a login time no later than it. */
  predicate Consistent(info: ConnectionInfo) {
    && (info.status == Close ==> info.connectedAt.None?)
    && (info.status == Open ==> info.connectedAt.Some?)
    && (info.connectedAt.Some? ==> info.lastLogin.Some? && info.lastLogin.value <= info.connectedAt.value)
  }

  lemma InitialInfoConsistent()
    ensures Consistent(InitialInfo)
    ensures InitialInfo.status == Close && InitialInfo.id.None? && InitialInfo.lastLogin.None? && InitialInfo.connectedAt.None?
  {
  }

  /** Each update keeps the record consistent when its clock runs forward. */
  lemma SetStatusKeepsConsistent(info: ConnectionInfo, status: Status, id: IdArg, loginTime: int, connectTime: int)
    requires Consistent(info) && loginTime <= connectTime
    ensures Consistent(SetStatus(info, status, id, loginTime, connectTime))
  {
  }

  /** Every record reachable from the initial one is consistent. */
  lemma {:induction false} ReplayConsistent(updates: seq<Update>)
    requires ClockForward(updates)
    ensures Consistent(Replay(InitialInfo, updates))
    decreases |updates|
  {
    if |updates| == 0 {
      InitialInfoConsistent();
    } else {
      var init := updates[..|updates| - 1];
      var u := updates[|updates| - 1];
      assert ClockForward(init) by {
        assert forall i :: 0 <= i < |init| ==> init[i] == updates[i];
      }
      ReplayConsistent(init);
      SetStatusKeepsConsistent(Replay(InitialInfo, init), u.status, u.id, u.loginTime, u.connectTime);
    }
  }

  /** The id is the one last given, whatever statuses came after it. */
  lemma {:induction false} ReplayId(info: ConnectionInfo, updates: seq<Update>)
    ensures Replay(info, updates).id == LastGivenId(updates, info.id)
    decreases |updates|
  {
    if |updates| > 0 {
      ReplayId(info, updates[..|updates| - 1]);
    }
  }

  /** Closing keeps the last login time and forgets the connection time;
      reconnecting then leaves both as they were. */
  lemma CloseThenConnectingKeepsLogin(info: ConnectionInfo, t1: int, t2: int, t3: int, t4: int)
    ensures var closed := SetStatus(info, Close, Omitted, t1, t2);
      var connecting := SetStatus(closed, Connecting, Omitted, t3, t4);
      && connecting.lastLogin == info.lastLogin
      && connecting.connectedAt.None?
      && connecting.id == info.id
  {
  }
}
