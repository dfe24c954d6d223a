/**
 Start-up of the SSH keypair Secret and the public-key ConfigMap (keypair.go).  It runs before
 leader election, so any number of operator replicas take these steps at once: each step is one
 API call of one replica, with the replica's earlier and possibly outdated reads as its locals.
 */
module Keypair {
  import opened Text

  type Name = string

  const LINUX_TAR: string := "linux-helpers.tar"
  const WINDOWS_TAR: string := "windows-helpers.tar"

  /** The helper tarballs embedded in one operator binary. */
  datatype Tars = Tars(linux: string, windows: string)

  /** The version is the resourceVersion: no two writes ever share one. */
  datatype ConfigMap = ConfigMap(publicKey: string, binary: map<string, string>, version: nat)

  /** The Secret is represented by the private key it stores, "" when it stores none. */
  datatype Server = Server(secret: Option<string>, cm: Option<ConfigMap>, version: nat)

  /** The two things an operator pod brings along: key derivation and its own tarballs. */
  datatype Binary = Binary(derive: string -> Option<string>, tars: Name -> Tars)

  /** What a Get reported. */
  datatype Got<T> = Found(value: T) | Missing | Unknown

  /** Where a replica is: the next call it makes, with the locals that call needs. */
  datatype Pc =
    | ReadSecret
    | ReadConfigMap(secret: Got<string>)
    | Sync(cm: ConfigMap, retried: bool)
    | Refetch
    | DropConfigMap
    | StoreSecret
    | StoreConfigMap(publicKey: string)
    | Returned(ok: bool)

  /** Lost: the server carried the call out, but the replica saw an error. */
  datatype Outcome = Done | Failed | Lost

  datatype Event =
    | Begin(r: Name)
    | Call(r: Name, x: Outcome, key: string)
    | Crash(r: Name)

  datatype World = World(server: Server, replicas: map<Name, Pc>)

  /** The public key of a stored private key; None when it is missing or does not parse. */
  function PublicKey(b: Binary, key: string): Option<string> {
    if key == "" then None else b.derive(key)
  }

  function BinaryData(cm: ConfigMap, name: string): string {
    if name in cm.binary then cm.binary[name] else ""
  }

  predicate Synced(cm: ConfigMap, t: Tars) {
    BinaryData(cm, LINUX_TAR) == t.linux && BinaryData(cm, WINDOWS_TAR) == t.windows
  }

  function WithTars(cm: ConfigMap, t: Tars): (r: ConfigMap)
    ensures Synced(r, t) && r.publicKey == cm.publicKey && r.version == cm.version
  {
    cm.(binary := cm.binary[LINUX_TAR := t.linux][WINDOWS_TAR := t.windows])
  }

  // ---------------------------------------------------------------------------
  // The API calls
  // ---------------------------------------------------------------------------

  function Seen<T>(x: Outcome, o: Option<T>): Got<T> {
    if !x.Done? then Unknown else if o.Some? then Found(o.value) else Missing
  }

  /** EnsureOperatorResources once both reads are back. */
  function Decide(b: Binary, t: Tars, secret: Got<string>, cm: Got<ConfigMap>): Pc {
    if secret.Found? && cm.Found? then
      if Synced(cm.value, t) then Returned(true) else Sync(WithTars(cm.value, t), false)
    else if secret.Unknown? || cm.Unknown? then Returned(false)
    else if secret.Found? then
      var p := PublicKey(b, secret.value);
      if p.Some? then StoreConfigMap(p.value) else Returned(false)
    else if cm.Found? then DropConfigMap
    else StoreSecret
  }

  function Write(s: Server, cm: ConfigMap): Server {
    s.(cm := Some(cm.(version := s.version + 1)), version := s.version + 1)
  }

  function Updated(s: Server, cm: ConfigMap, retried: bool, x: Outcome): (Server, Pc) {
    if x.Failed? || s.cm.None? then (s, Returned(false))
    else if s.cm.value.version != cm.version then
      (s, if x.Done? && !retried then Refetch else Returned(false))
    else (Write(s, cm), Returned(x.Done?))
  }

  /** One call of a replica with tarballs t; `key` is the private key it would generate. */
  function Next(b: Binary, t: Tars, s: Server, pc: Pc, x: Outcome, key: string): (Server, Pc) {
    match pc
    case ReadSecret => (s, ReadConfigMap(Seen(x, s.secret)))
    case ReadConfigMap(secret) => (s, Decide(b, t, secret, Seen(x, s.cm)))
    case Sync(cm, retried) => Updated(s, cm, retried, x)
    case Refetch => (s, if x.Done? && s.cm.Some? then Sync(WithTars(s.cm.value, t), true) else Returned(false))
    case DropConfigMap => (if x.Failed? then s else s.(cm := None), if x.Done? then StoreSecret else Returned(false))
    case StoreSecret =>
      var p := PublicKey(b, key);
      if p.None? || x.Failed? || s.secret.Some? then (s, Returned(false))
      else (s.(secret := Some(key)), if x.Done? then StoreConfigMap(p.value) else Returned(false))
    case StoreConfigMap(p) =>
      if x.Failed? || s.cm.Some? then (s, Returned(false))
      else (Write(s, WithTars(ConfigMap(p, map[], 0), t)), Returned(x.Done?))
    case Returned(_) => (s, pc)
  }

  function Step(b: Binary, w: World, e: Event): World {
    match e
    case Begin(r) =>
      if r in w.replicas && !w.replicas[r].Returned? then w else w.(replicas := w.replicas[r := ReadSecret])
    case Call(r, x, key) =>
      if r !in w.replicas then w
      else
        var n := Next(b, b.tars(r), w.server, w.replicas[r], x, key);
        World(n.0, w.replicas[r := n.1])
    case Crash(r) => w.(replicas := w.replicas - {r})
  }

  function Exec(b: Binary, w: World, run: seq<Event>): World {
    if run == [] then w else Step(b, Exec(b, w, run[..|run| - 1]), run[|run| - 1])
  }

  // ---------------------------------------------------------------------------
  // Safety
  // ---------------------------------------------------------------------------

  /** Whenever both objects exist, the published key is the one of the stored private key. */
  predicate Consistent(b: Binary, s: Server) {
    s.secret.Some? && s.cm.Some? ==> PublicKey(b, s.secret.value) == Some(s.cm.value.publicKey)
  }

  predicate Initial(b: Binary, w: World) {
    && w.replicas == map[]
    && Consistent(b, w.server)
    && (w.server.cm.Some? ==> w.server.cm.value.version <= w.server.version)
  }

  /** What every call of every replica guarantees to all others. */
  predicate Evolves(s: Server, t: Server) {
    && (s.secret.Some? ==> t.secret == s.secret)
    && s.version <= t.version
    && (t.cm.Some? && t.cm.value.version <= s.version ==> t.cm == s.cm)
    && (t.secret.None? && s.cm.None? ==> t.cm.None?)
  }

  /** What a replica's position and locals say about the server. */
  predicate PcOk(b: Binary, s: Server, pc: Pc) {
    match pc
    case ReadSecret => true
    case ReadConfigMap(secret) => secret.Found? ==> s.secret == Some(secret.value)
    case Sync(cm, _) =>
      && s.secret.Some? && cm.version <= s.version
      && (s.cm.Some? && s.cm.value.version == cm.version ==> s.cm.value.publicKey == cm.publicKey)
    case Refetch => s.secret.Some?
    case DropConfigMap => true
    case StoreSecret => s.secret.None? ==> s.cm.None?
    case StoreConfigMap(p) => s.secret.Some? && PublicKey(b, s.secret.value) == Some(p)
    case Returned(ok) => ok ==> s.secret.Some?
  }

  predicate ServerOk(b: Binary, s: Server) {
    Consistent(b, s) && (s.cm.Some? ==> s.cm.value.version <= s.version)
  }

  ghost predicate Inv(b: Binary, w: World) {
    ServerOk(b, w.server) && forall r :: r in w.replicas ==> PcOk(b, w.server, w.replicas[r])
  }

  lemma NextKeeps(b: Binary, t: Tars, s: Server, pc: Pc, x: Outcome, key: string)
    requires ServerOk(b, s) && PcOk(b, s, pc)
    ensures var n := Next(b, t, s, pc, x, key); ServerOk(b, n.0) && PcOk(b, n.0, n.1) && Evolves(s, n.0)
  {
  }

  lemma OthersKeep(b: Binary, s: Server, t: Server, pc: Pc)
    requires PcOk(b, s, pc) && Evolves(s, t) && ServerOk(b, s)
    ensures PcOk(b, t, pc)
  {
  }

  lemma StepKeeps(b: Binary, w: World, e: Event)
    requires Inv(b, w)
    ensures Inv(b, Step(b, w, e)) && Evolves(w.server, Step(b, w, e).server)
  {
    hide Next, PcOk, Evolves;
    if e.Call? && e.r in w.replicas {
      NextKeeps(b, b.tars(e.r), w.server, w.replicas[e.r], e.x, e.key);
      var v := Step(b, w, e);
      forall r | r in v.replicas ensures PcOk(b, v.server, v.replicas[r]) {
        if r != e.r { OthersKeep(b, w.server, v.server, w.replicas[r]); }
      }
    } else {
      assert Evolves(w.server, w.server) && (e.Begin? ==> PcOk(b, w.server, ReadSecret)) by { StayPut(b, w.server); }
    }
  }

  lemma StayPut(b: Binary, s: Server)
    ensures Evolves(s, s) && PcOk(b, s, ReadSecret)
  {
  }

  lemma {:induction false} Reachable(b: Binary, w: World, run: seq<Event>)
    requires Initial(b, w)
    ensures Inv(b, Exec(b, w, run))
  {
    if run != [] {
      Reachable(b, w, run[..|run| - 1]);
      StepKeeps(b, Exec(b, w, run[..|run| - 1]), run[|run| - 1]);
    }
  }

  /** However the replicas interleave, fail and crash, the published key always fits the stored one. */
  lemma KeysAlwaysMatch(b: Binary, w: World, run: seq<Event>)
    requires Initial(b, w)
    ensures Consistent(b, Exec(b, w, run).server)
  {
    Reachable(b, w, run);
  }

  /** A stored private key is never replaced and never removed. */
  lemma {:induction false} SecretIsForever(b: Binary, w: World, run: seq<Event>, more: seq<Event>)
    requires Initial(b, w)
    requires Exec(b, w, run).server.secret.Some?
    ensures Exec(b, w, run + more).server.secret == Exec(b, w, run).server.secret
  {
    if more == [] {
      assert run + more == run;
    } else {
      var init := more[..|more| - 1];
      SecretIsForever(b, w, run, init);
      assert (run + more)[..|run + more| - 1] == run + init;
      Reachable(b, w, run + init);
      StepKeeps(b, Exec(b, w, run + init), more[|more| - 1]);
    }
  }

  /** An operator that came up has its private key, whatever the others do later. */
  lemma ReadyHasKey(b: Binary, w: World, run: seq<Event>, r: Name)
    requires Initial(b, w)
    requires var v := Exec(b, w, run); r in v.replicas && v.replicas[r] == Returned(true)
    ensures Exec(b, w, run).server.secret.Some?
  {
    Reachable(b, w, run);
    assert PcOk(b, Exec(b, w, run).server, Returned(true));
  }

  /** What replica r was last told about the Secret. */
  function LastRead(b: Binary, w: World, run: seq<Event>, r: Name): Got<string> {
    if run == [] then Unknown
    else
      var before, e := run[..|run| - 1], run[|run| - 1];
      var v := Exec(b, w, before);
      if e.Call? && e.r == r && r in v.replicas && v.replicas[r].ReadSecret? then
        (if e.x != Done then Unknown else if v.server.secret.None? then Missing else Found(v.server.secret.value))
      else LastRead(b, w, before, r)
  }

  /** What a replica does to either object is covered by its read of the Secret. */
  predicate Covered(pc: Pc, read: Got<string>) {
    && (pc.ReadConfigMap? ==> pc.secret == read)
    && (pc.DropConfigMap? || pc.StoreSecret? ==> read.Missing?)
    && (pc.Sync? || pc.Refetch? ==> read.Found?)
    && (pc.StoreConfigMap? ==> !read.Unknown?)
  }

  lemma NextCovered(b: Binary, t: Tars, s: Server, pc: Pc, x: Outcome, key: string, read: Got<string>)
    requires Covered(pc, read)
    ensures var told := if x != Done then Unknown else if s.secret.None? then Missing else Found(s.secret.value);
            Covered(Next(b, t, s, pc, x, key).1, if pc.ReadSecret? then told else read)
  {
  }

  /**
   Over all runs: a replica deletes a ConfigMap or stores a key only behind a read that reported the
   Secret missing, updates a ConfigMap only behind one that found it, and does neither behind one that failed.
   */
  lemma {:induction false} WritesAreCovered(b: Binary, w: World, run: seq<Event>, r: Name)
    requires Initial(b, w)
    ensures var v := Exec(b, w, run); r in v.replicas ==> Covered(v.replicas[r], LastRead(b, w, run, r))
  {
    hide Next, Covered;
    if run != [] {
      var before, e := run[..|run| - 1], run[|run| - 1];
      WritesAreCovered(b, w, before, r);
      var v := Exec(b, w, before);
      BeginIsCovered(LastRead(b, w, run, r));
      if e.Call? && e.r == r && r in v.replicas {
        NextCovered(b, b.tars(r), v.server, v.replicas[r], e.x, e.key, LastRead(b, w, before, r));
      }
    }
  }

  lemma BeginIsCovered(read: Got<string>)
    ensures Covered(ReadSecret, read)
  {
  }

  // ---------------------------------------------------------------------------
  // Convergence
  // ---------------------------------------------------------------------------

  function Remaining(pc: Pc): nat {
    match pc
    case ReadSecret => 5
    case ReadConfigMap(_) => 4
    case DropConfigMap => 3
    case Sync(_, retried) => if retried then 1 else 3
    case Refetch => 2
    case StoreSecret => 2
    case StoreConfigMap(_) => 1
    case Returned(_) => 0
  }

  /** Calls strictly approach the end: at most five per attempt. */
  lemma NextApproaches(b: Binary, t: Tars, s: Server, pc: Pc, x: Outcome, key: string)
    requires !pc.Returned?
    ensures Remaining(Next(b, t, s, pc, x, key).1) < Remaining(pc)
  {
  }

  /** The rest of a call during which nobody else acts and nothing fails. */
  function Undisturbed(b: Binary, t: Tars, s: Server, pc: Pc, key: string): (Server, bool)
    decreases Remaining(pc)
  {
    if pc.Returned? then (s, pc.ok)
    else
      NextApproaches(b, t, s, pc, Done, key);
      var n := Next(b, t, s, pc, Done, key);
      Undisturbed(b, t, n.0, n.1, key)
  }

  function Calls(r: Name, key: string, n: nat): seq<Event> {
    if n == 0 then [] else Calls(r, key, n - 1) + [Call(r, Done, key)]
  }

  lemma {:induction false} ExecSplit(b: Binary, w: World, run: seq<Event>, more: seq<Event>)
    ensures Exec(b, w, run + more) == Exec(b, Exec(b, w, run), more)
  {
    if more == [] {
      assert run + more == run;
    } else {
      assert (run + more)[..|run + more| - 1] == run + more[..|more| - 1];
      ExecSplit(b, w, run, more[..|more| - 1]);
    }
  }

  lemma ExecFirst(b: Binary, w: World, e: Event, more: seq<Event>)
    ensures Exec(b, w, [e] + more) == Exec(b, Step(b, w, e), more)
  {
    hide Step;
    ExecSplit(b, w, [e], more);
    assert Exec(b, w, [e]) == Step(b, w, e);
  }

  lemma {:induction false} CallsFirst(r: Name, key: string, n: nat)
    ensures Calls(r, key, n + 1) == [Call(r, Done, key)] + Calls(r, key, n)
  {
    if n > 0 { CallsFirst(r, key, n - 1); }
  }

  /** The first call of the rest: it gets closer to the end, and the rest after it is the same rest. */
  lemma OneMore(b: Binary, w: World, r: Name, key: string)
    requires r in w.replicas
    ensures var v := Step(b, w, Call(r, Done, key));
            && r in v.replicas
            && (w.replicas[r].Returned? ==> v == w)
            && (!w.replicas[r].Returned? ==> Remaining(v.replicas[r]) < Remaining(w.replicas[r]))
            && (forall end: Pc {:trigger v.replicas[r := end]} :: v.replicas[r := end] == w.replicas[r := end])
            && Undisturbed(b, b.tars(r), v.server, v.replicas[r], key) == Undisturbed(b, b.tars(r), w.server, w.replicas[r], key)
  {
  }

  /** Undisturbed is what a run of calls of one replica alone does. */
  lemma {:induction false} UndisturbedIsARun(b: Binary, w: World, r: Name, key: string, n: nat)
    requires r in w.replicas && Remaining(w.replicas[r]) <= n
    ensures var u := Undisturbed(b, b.tars(r), w.server, w.replicas[r], key);
            Exec(b, w, Calls(r, key, n)) == World(u.0, w.replicas[r := Returned(u.1)])
    decreases n
  {
    hide Next, Remaining, Undisturbed, Step, Exec, Calls;
    if n == 0 {
      NothingLeft(b, w, r, key);
    } else {
      var v := Step(b, w, Call(r, Done, key));
      CallsFirst(r, key, n - 1);
      ExecFirst(b, w, Call(r, Done, key), Calls(r, key, n - 1));
      OneMore(b, w, r, key);
      assert Remaining(v.replicas[r]) <= n - 1 by { ReturnedIsLast(w.replicas[r]); }
      UndisturbedIsARun(b, v, r, key, n - 1);
      var end := Returned(Undisturbed(b, b.tars(r), w.server, w.replicas[r], key).1);
      assert v.replicas[r := end] == w.replicas[r := end];
    }
  }

  lemma NothingLeft(b: Binary, w: World, r: Name, key: string)
    requires r in w.replicas && Remaining(w.replicas[r]) <= 0
    ensures var u := Undisturbed(b, b.tars(r), w.server, w.replicas[r], key);
            Exec(b, w, Calls(r, key, 0)) == World(u.0, w.replicas[r := Returned(u.1)])
  {
    assert w.replicas[r := w.replicas[r]] == w.replicas;
  }

  lemma ReturnedIsLast(pc: Pc)
    ensures pc.Returned? <==> Remaining(pc) == 0
  {
  }

  /** The one situation start-up cannot repair: a Secret without a usable key and no ConfigMap. */
  predicate Stuck(b: Binary, s: Server) {
    s.secret.Some? && PublicKey(b, s.secret.value).None? && s.cm.None?
  }

  predicate Ready(b: Binary, s: Server, t: Tars) {
    s.secret.Some? && s.cm.Some? && Consistent(b, s) && Synced(s.cm.value, t)
  }

  /** One call from a sound server state, and what a second call then does. */
  lemma OneCall(b: Binary, t: Tars, s: Server, key: string, key2: string)
    requires ServerOk(b, s) && PublicKey(b, key).Some?
    ensures var u := Undisturbed(b, t, s, ReadSecret, key);
            && (u.1 <==> !Stuck(b, s))
            && (u.1 ==> Ready(b, u.0, t) && Undisturbed(b, t, u.0, ReadSecret, key2) == u)
            && (!u.1 ==> u.0 == s)
            && (s.secret.Some? && s.cm.Some? ==> u.0.cm.value.publicKey == s.cm.value.publicKey)
  {
    var sec := Seen(Done, s.secret);
    var d := Decide(b, t, sec, Seen(Done, s.cm));
    assert Undisturbed(b, t, s, ReadSecret, key) == Undisturbed(b, t, s, ReadConfigMap(sec), key) == Undisturbed(b, t, s, d, key);
    if d.DropConfigMap? {
      FromScratch(b, t, s.(cm := None), key);
    } else if d.StoreSecret? {
      FromScratch(b, t, s, key);
    }
    var u := Undisturbed(b, t, s, ReadSecret, key);
    if u.1 { ReadyIsQuiet(b, t, u.0, key2); }
  }

  lemma FromScratch(b: Binary, t: Tars, s: Server, key: string)
    requires s.secret.None? && s.cm.None? && PublicKey(b, key).Some?
    ensures var u := Undisturbed(b, t, s, StoreSecret, key);
            u.1 && Ready(b, u.0, t) && u.0.secret == Some(key)
  {
  }

  lemma ReadyIsQuiet(b: Binary, t: Tars, s: Server, key: string)
    requires Ready(b, s, t)
    ensures Undisturbed(b, t, s, ReadSecret, key) == (s, true)
  {
  }

  /**
   From every state the replicas can get into, one call that is left alone succeeds, unless the
   server is Stuck; then both objects are there, the keys match, the tarballs are the caller's
   own, and calling again writes nothing.  On a Stuck server it fails and writes nothing.
   */
  lemma StartupConverges(b: Binary, w: World, run: seq<Event>, r: Name, key: string, key2: string)
    requires Initial(b, w) && PublicKey(b, key).Some?
    requires var v := Exec(b, w, run); r in v.replicas ==> v.replicas[r].Returned?
    ensures var v := Exec(b, w, run);
            var v1 := Exec(b, v, [Begin(r)] + Calls(r, key, 5));
            var v2 := Exec(b, v1, [Begin(r)] + Calls(r, key2, 5));
            && r in v1.replicas && v1.replicas[r].Returned?
            && (v1.replicas[r].ok <==> !Stuck(b, v.server))
            && (v1.replicas[r].ok ==> Ready(b, v1.server, b.tars(r)) && v2 == v1)
            && (!v1.replicas[r].ok ==> v1.server == v.server)
  {
    var v := Exec(b, w, run);
    Reachable(b, w, run);
    WholeCall(b, v, r, key);
    OneCall(b, b.tars(r), v.server, key, key2);
    WholeCall(b, Exec(b, v, [Begin(r)] + Calls(r, key, 5)), r, key2);
  }

  lemma WholeCall(b: Binary, v: World, r: Name, key: string)
    requires r in v.replicas ==> v.replicas[r].Returned?
    ensures var u := Undisturbed(b, b.tars(r), v.server, ReadSecret, key);
            Exec(b, v, [Begin(r)] + Calls(r, key, 5)) == World(u.0, v.replicas[r := Returned(u.1)])
  {
    ExecFirst(b, v, Begin(r), Calls(r, key, 5));
    var started := v.(replicas := v.replicas[r := ReadSecret]);
    UndisturbedIsARun(b, started, r, key, 5);
    assert started.replicas[r := Returned(Undisturbed(b, b.tars(r), v.server, ReadSecret, key).1)]
        == v.replicas[r := Returned(Undisturbed(b, b.tars(r), v.server, ReadSecret, key).1)];
  }

  // ---------------------------------------------------------------------------
  // A race the results cover
  // ---------------------------------------------------------------------------

  /** Replica "a" reads an orphaned ConfigMap and stalls, then "b" repairs everything. */
  function StallAndRepair(key: string): seq<Event> {
    [Begin("a"), Call("a", Done, key), Call("a", Done, key)] + ([Begin("b")] + Calls("b", key, 5))
  }

  /** The safety results cover this race: the stale replica now deletes the ConfigMap "b" has made good. */
  lemma GoodConfigMapCanBeDeleted(b: Binary, w: World, key: string)
    requires Initial(b, w) && w.server.secret.None? && w.server.cm.Some? && PublicKey(b, key).Some?
    ensures var repaired := Exec(b, w, StallAndRepair(key));
            && Ready(b, repaired.server, b.tars("b"))
            && Exec(b, w, StallAndRepair(key) + [Call("a", Done, key)]).server == repaired.server.(cm := None)
  {
    hide Undisturbed, Calls, Next, Exec;
    var stall := [Begin("a"), Call("a", Done, key), Call("a", Done, key)];
    var repair := [Begin("b")] + Calls("b", key, 5);
    var stalled := World(w.server, map["a" := DropConfigMap]);
    StallsBeforeDelete(b, w, key);
    ExecSplit(b, w, stall, repair);
    OneCall(b, b.tars("b"), w.server, key, key);
    WholeCall(b, stalled, "b", key);
    var repaired := Exec(b, w, StallAndRepair(key));
    assert repaired.replicas["a"] == DropConfigMap;
    ExecSplit(b, w, StallAndRepair(key), [Call("a", Done, key)]);
    DropsIt(b, repaired, key);
  }

  lemma StallsBeforeDelete(b: Binary, w: World, key: string)
    requires Initial(b, w) && w.server.secret.None? && w.server.cm.Some?
    ensures Exec(b, w, [Begin("a"), Call("a", Done, key), Call("a", Done, key)]) == World(w.server, map["a" := DropConfigMap])
  {
    var one := World(w.server, map["a" := ReadSecret]);
    var two := World(w.server, map["a" := ReadConfigMap(Missing)]);
    var c := Call("a", Done, key);
    assert Step(b, w, Begin("a")) == one && Step(b, one, c) == two;
    assert Step(b, two, c) == World(w.server, map["a" := DropConfigMap]);
    hide Step;
    assert [Begin("a"), c, c] == [Begin("a")] + ([c] + [c]);
    ExecFirst(b, w, Begin("a"), [c] + [c]);
    ExecFirst(b, one, c, [c]);
    ExecFirst(b, two, c, []);
    assert [c] + [] == [c];
  }

  lemma DropsIt(b: Binary, w: World, key: string)
    requires "a" in w.replicas && w.replicas["a"] == DropConfigMap
    ensures Exec(b, w, [Call("a", Done, key)]).server == w.server.(cm := None)
  {
  }
}
