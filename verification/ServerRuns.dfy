/** What each session of a server accepted over a whole run of calls, told from the calls. */
module ServerRuns {
  import opened Bytes
  import opened Framing
  import LinuxRuns
  import opened LinuxSession
  import opened Servers

  predicate AllOk(vs: seq<View>) { forall i | 0 <= i < |vs| :: ViewOk(vs[i]) }

  /** Where session `i` is after a pass of the driver, if it is still there: those before it that are closed
      then leave. */
  function Place(vs: seq<View>, args: nat -> Args, n: nat, i: nat): Option<nat>
    requires AllOk(vs) && i < |vs|
    decreases |vs|
  {
    var closed := Updated(vs[0], args(n)).core.status.Closed?;
    if i == 0 then if closed then None else Some(0)
    else match Place(vs[1..], args, n + 1, i - 1)
      case Some(j) => Some(if closed then j else j + 1)
      case None => None
  }

  /** A pass updates every session once and drops exactly those that are closed then. */
  lemma {:induction false} DrivenPlaces(vs: seq<View>, args: nat -> Args, n: nat, i: nat)
    requires AllOk(vs) && i < |vs|
    ensures var v, r := Updated(vs[i], args(n + i)), Driven(vs, args, n);
            match Place(vs, args, n, i)
            case Some(j) => !v.core.status.Closed? && j < |r| && r[j] == v
            case None => v.core.status.Closed?
    decreases |vs|
  {
    hide Updated, ViewOk;
    DrivenFirst(vs, args, n);
    if i > 0 {
      DrivenPlaces(vs[1..], args, n + 1, i - 1);
    }
  }

  /** Where session `i` is after a call. */
  function After(vs: seq<View>, c: Call, i: nat): Option<nat>
    requires AllOk(vs) && i < |vs|
  {
    if c.Drive? then Place(vs, c.args, 0, i) else Some(i)
  }

  /** ... and after some calls. */
  function Where(vs: seq<View>, calls: seq<Call>, i: nat): Option<nat>
    requires AllOk(vs) && i < |vs|
    decreases |calls|
  {
    if calls == [] then Some(i)
    else
      CalledOk(vs, calls[0]);
      match After(vs, calls[0], i)
      case None => None
      case Some(j) => AfterCall(vs, calls[0], i); Where(Called(vs, calls[0]), calls[1..], j)
  }

  /** The payloads it was given while it was running. */
  function Given(vs: seq<View>, calls: seq<Call>, i: nat): seq<seq<byte>>
    requires AllOk(vs) && i < |vs|
    decreases |calls|
  {
    if calls == [] then []
    else
      CalledOk(vs, calls[0]);
      GivenBy(vs[i], calls[0], i) +
      match After(vs, calls[0], i)
      case None => []
      case Some(j) => AfterCall(vs, calls[0], i); Given(Called(vs, calls[0]), calls[1..], j)
  }

  function GivenBy(v: View, c: Call, i: nat): seq<seq<byte>> {
    if c.Send? && c.i == i && v.core.status.Running? then [c.p] else []
  }

  lemma UpdatedAccepts(v: View, a: Args)
    requires ViewOk(v)
    ensures Updated(v, a).core.hist.accepted == v.core.hist.accepted
  {
    LinuxRuns.FlagsHistory(v.core, v.events);
    LinuxRuns.BodyHistory(Ready(v.core, v.events), Closing(v.events), a.recvs, a.sends, a.idle);
    hide Body;
  }

  lemma AfterDrive(vs: seq<View>, args: nat -> Args, i: nat)
    requires AllOk(vs) && i < |vs|
    ensures match Place(vs, args, 0, i)
            case Some(j) => j < |Driven(vs, args, 0)| && Driven(vs, args, 0)[j].core.hist.accepted == vs[i].core.hist.accepted
            case None => true
  {
    hide Place, Driven, Updated, ViewOk;
    DrivenPlaces(vs, args, 0, i);
    UpdatedAccepts(vs[i], args(0 + i));
  }

  /** One call: the session accepts what it is given, and no other call changes what it accepted. */
  lemma AfterCall(vs: seq<View>, c: Call, i: nat)
    requires AllOk(vs) && i < |vs|
    ensures match After(vs, c, i)
            case Some(j) =>
              j < |Called(vs, c)|
              && Called(vs, c)[j].core.hist.accepted == vs[i].core.hist.accepted + GivenBy(vs[i], c, i)
            case None => true
  {
    hide AllOk, ViewOk, Place, Driven, LinuxSession.Send;
    assert vs[i].core.hist.accepted + [] == vs[i].core.hist.accepted;
    match c
    case Drive(args) => AfterDrive(vs, args, i);
    case Send(k, p) =>
      if k < |vs| {
        SendAccepts(vs, k, p);
      }
    case _ =>
  }

  lemma SendAccepts(vs: seq<View>, k: nat, p: seq<byte>)
    requires AllOk(vs) && k < |vs|
    ensures LinuxSession.TxOk(vs[k].core.tx)
    ensures LinuxSession.Send(vs[k].core, p, AsWritten).hist.accepted
              == vs[k].core.hist.accepted + (if vs[k].core.status.Running? then [p] else [])
  {
    assert ViewOk(vs[k]);
    LinuxSession.SendStores(vs[k].core, p, AsWritten);
  }

  /** Over any run of a server each session that is still there has accepted exactly what it was given while
      it was running, in order. */
  lemma {:induction false} AcceptedInOrder(vs: seq<View>, calls: seq<Call>, i: nat)
    requires AllOk(vs) && i < |vs|
    ensures match Where(vs, calls, i)
            case Some(j) =>
              j < |CalledAll(vs, calls)|
              && CalledAll(vs, calls)[j].core.hist.accepted == vs[i].core.hist.accepted + Given(vs, calls, i)
            case None => true
    decreases |calls|
  {
    if calls == [] {
      assert vs[i].core.hist.accepted + [] == vs[i].core.hist.accepted;
    } else {
      hide After, GivenBy, Called, AllOk;
      CalledOk(vs, calls[0]);
      assert AllOk(Called(vs, calls[0])) by { OkAgain(vs, calls[0]); }
      AfterCall(vs, calls[0], i);
      if After(vs, calls[0], i).Some? {
        var vs', j := Called(vs, calls[0]), After(vs, calls[0], i).value;
        AcceptedInOrder(vs', calls[1..], j);
        Assoc(vs[i].core.hist.accepted, GivenBy(vs[i], calls[0], i), Given(vs', calls[1..], j));
      }
    }
  }

  lemma OkAgain(vs: seq<View>, c: Call)
    requires AllOk(vs)
    ensures AllOk(Called(vs, c))
  {
    CalledOk(vs, c);
  }
}
