/**
 EnsureOperatorResources and its helpers in their own form (keypair.go), with the start-up loop
 of main.go around them.  Every API call is one step of the machine in Keypair, and after every
 call other replicas may take any number of steps.
 */
module Bootstrap {
  import opened Text
  import opened Keypair

  const ATTEMPTS: nat := 5

  /** Events of others leave replica r where it is. */
  predicate Foreign(e: Event, r: Name) { e.r != r }

  /** What a call asks of the API server; a key that cannot be generated is not asked for. */
  datatype Request =
    | LookForSecret | LookForConfigMap
    | NewSecret(key: string) | NewConfigMap(publicKey: string)
    | PutConfigMap(cm: ConfigMap) | DropIt | Nothing

  function RequestAt(b: Binary, pc: Pc, key: string): Request {
    match pc
    case ReadSecret => LookForSecret
    case ReadConfigMap(_) => LookForConfigMap
    case Sync(cm, _) => PutConfigMap(cm)
    case Refetch => LookForConfigMap
    case DropConfigMap => DropIt
    case StoreSecret => if PublicKey(b, key).Some? then NewSecret(key) else Nothing
    case StoreConfigMap(publicKey) => NewConfigMap(publicKey)
    case Returned(_) => Nothing
  }

  /** One update with the own tarballs; behind a conflict a refetch and at most one more update, of what was refetched. */
  ghost predicate Syncs(sent: seq<Request>, before: seq<Request>, cm: ConfigMap, t: Tars) {
    var put := PutConfigMap(WithTars(cm, t));
    || sent == before + [put]
    || sent == before + [put, LookForConfigMap]
    || exists again: ConfigMap :: sent == before + [put, LookForConfigMap, PutConfigMap(WithTars(again, t))]
  }

  /** A new private key and behind it, if it was stored, its public half; nothing if no key could be generated. */
  predicate Generates(sent: seq<Request>, before: seq<Request>, b: Binary, key: string, ok: bool) {
    var public := PublicKey(b, key);
    if public.None? then sent == before && !ok
    else (sent == before + [NewSecret(key)] && !ok) || sent == before + [NewSecret(key), NewConfigMap(public.value)]
  }

  /**
   What one attempt asks for, given what its two reads reported: nothing more behind a failed read;
   tarballs only if they differ; a missing ConfigMap is derived from the stored key; only behind a
   Secret that is missing is an orphaned ConfigMap deleted and a key generated.
   */
  ghost predicate Repairs(sent: seq<Request>, before: seq<Request>, b: Binary, t: Tars, secret: Got<string>, cm: Got<ConfigMap>, ok: bool) {
    var looked := before + [LookForSecret, LookForConfigMap];
    if secret.Unknown? || cm.Unknown? then !ok && sent == looked
    else if secret.Found? && cm.Found? then (if Synced(cm.value, t) then ok && sent == looked else Syncs(sent, looked, cm.value, t))
    else if secret.Found? then
      (if PublicKey(b, secret.value).None? then !ok && sent == looked else sent == looked + [NewConfigMap(PublicKey(b, secret.value).value)])
    else if cm.Found? then (sent == looked + [DropIt] && !ok) || exists key: string :: Generates(sent, looked + [DropIt], b, key, ok)
    else exists key: string :: Generates(sent, looked, b, key, ok)
  }

  /** How often r has begun an attempt. */
  function Begun(log: seq<Event>, r: Name): nat {
    if log == [] then 0 else Begun(log[..|log| - 1], r) + if log[|log| - 1] == Begin(r) then 1 else 0
  }

  class Operator {
    var w: World
    /** What this code has asked for, in order. */
    ghost var sent: seq<Request>
    const b: Binary
    ghost const start: World
    ghost var log: seq<Event>

    ghost predicate Valid()
      reads this
    {
      Initial(b, start) && w == Exec(b, start, log)
    }

    constructor (b: Binary, w: World)
      requires Initial(b, w)
      ensures Valid() && this.b == b && this.w == w && log == [] && sent == []
    {
      this.b := b;
      this.w := w;
      this.start := w;
      this.log := [];
      this.sent := [];
    }

    predicate At(r: Name, pc: Pc)
      reads this
    {
      r in w.replicas && w.replicas[r] == pc
    }

    method Take(e: Event)
      requires Valid()
      modifies this
      ensures Valid() && log == old(log) + [e] && w == Step(b, old(w), e) && sent == old(sent)
    {
      hide Step, Initial;
      w := Step(b, w, e);
      log := log + [e];
      assert log[..|log| - 1] == old(log);
    }

    /** The other replicas start, call and crash as they like. */
    method Yield(r: Name)
      requires Valid() && r in w.replicas
      modifies this
      ensures Valid() && old(log) <= log && At(r, old(w.replicas[r])) && sent == old(sent)
      ensures Begun(log, r) == Begun(old(log), r)
    {
      hide Initial, Exec, Next;
      var steps: seq<Event> := *;
      for i := 0 to |steps|
        invariant Valid() && old(log) <= log && At(r, old(w.replicas[r])) && sent == old(sent)
        invariant Begun(log, r) == Begun(old(log), r)
      {
        if Foreign(steps[i], r) { Take(steps[i]); }
      }
    }

    /** One call of replica r; everything the replica learns is in its next position. */
    method Do(r: Name, q: Request, x: Outcome, key: string)
      requires Valid() && r in w.replicas && q == RequestAt(b, w.replicas[r], key)
      modifies this
      ensures Valid() && old(log) < log && sent == old(sent) + if q.Nothing? then [] else [q]
      ensures At(r, old(Next(b, b.tars(r), w.server, w.replicas[r], x, key).1))
      ensures Begun(log, r) == Begun(old(log), r)
    {
      hide Initial, Exec, Next, RequestAt;
      if !q.Nothing? { sent := sent + [q]; }
      Take(Call(r, x, key));
      Yield(r);
    }

    /** Get of the Secret. */
    method GetSecret(r: Name) returns (got: Got<string>)
      requires Valid() && At(r, ReadSecret)
      modifies this
      ensures Valid() && old(log) < log && At(r, ReadConfigMap(got)) && sent == old(sent) + [LookForSecret] && Begun(log, r) == Begun(old(log), r)
      ensures got.Found? ==> old(w.server.secret) == Some(got.value)
      ensures got.Missing? ==> old(w.server.secret).None?
    {
      hide Initial, Exec;
      var x: Outcome := *;
      got := Seen(x, w.server.secret);
      Do(r, LookForSecret, x, "");
    }

    /** Get of the ConfigMap; with it the replica knows what to do next. */
    method GetConfigMap(r: Name, secret: Got<string>) returns (got: Got<ConfigMap>)
      requires Valid() && At(r, ReadConfigMap(secret))
      modifies this
      ensures Valid() && old(log) < log && At(r, Decide(b, b.tars(r), secret, got)) && sent == old(sent) + [LookForConfigMap] && Begun(log, r) == Begun(old(log), r)
      ensures got.Found? ==> old(w.server.cm) == Some(got.value)
      ensures got.Missing? ==> old(w.server.cm).None?
    {
      hide Initial, Exec, Decide;
      var x: Outcome := *;
      got := Seen(x, w.server.cm);
      Do(r, LookForConfigMap, x, "");
    }

    /** createConfigMap */
    method CreateConfigMap(r: Name, publicKey: string) returns (ok: bool)
      requires Valid() && At(r, StoreConfigMap(publicKey))
      modifies this
      ensures Begun(log, r) == Begun(old(log), r)
      ensures Valid() && old(log) < log && At(r, Returned(ok))
      ensures old(w.server.cm).Some? ==> !ok
      ensures sent == old(sent) + [NewConfigMap(publicKey)]
    {
      hide Initial, Exec;
      var x: Outcome := *;
      ok := x.Done? && w.server.cm.None?;
      Do(r, NewConfigMap(publicKey), x, "");
    }

    /** createConfigMapFromSecret */
    method CreateConfigMapFromSecret(r: Name, key: string) returns (ok: bool)
      requires Valid() && At(r, Decide(b, b.tars(r), Found(key), Missing))
      modifies this
      ensures Begun(log, r) == Begun(old(log), r)
      ensures Valid() && old(log) <= log && At(r, Returned(ok))
      ensures PublicKey(b, key).None? ==> !ok && w == old(w) && sent == old(sent)
      ensures PublicKey(b, key).Some? ==> sent == old(sent) + [NewConfigMap(PublicKey(b, key).value)]
    {
      if key == "" {
        return false;
      }
      var publicKey := b.derive(key);
      if publicKey.None? {
        return false;
      }
      ok := CreateConfigMap(r, publicKey.value);
    }

    /** createKeypairAndConfigMap: the private key first, and only behind it its public half. */
    method CreateKeypairAndConfigMap(r: Name) returns (ok: bool, ghost key: string)
      requires Valid() && At(r, StoreSecret)
      modifies this
      ensures Begun(log, r) == Begun(old(log), r)
      ensures Valid() && old(log) < log && At(r, Returned(ok))
      ensures old(w.server.secret).Some? ==> !ok
      ensures var public := PublicKey(b, key);
              if public.None? then sent == old(sent) && !ok
              else sent == old(sent) + [NewSecret(key)] + (if |sent| == |old(sent)| + 1 then [] else [NewConfigMap(public.value)])
      ensures ok ==> |sent| == |old(sent)| + 2
    {
      hide Initial, Exec;
      var generated: string := *;
      key := generated;
      var x: Outcome := *;
      var publicKey := PublicKey(b, generated);
      var stored := publicKey.Some? && x.Done? && w.server.secret.None?;
      Do(r, if publicKey.Some? then NewSecret(generated) else Nothing, x, generated);
      if !stored {
        return false, key;
      }
      ok := CreateConfigMap(r, publicKey.value);
    }

    /** One Update of the ConfigMap: done, a version conflict, or an error. */
    method Update(r: Name, cm: ConfigMap, retried: bool) returns (ok: bool, conflict: bool)
      requires Valid() && At(r, Sync(cm, retried))
      modifies this
      ensures Begun(log, r) == Begun(old(log), r)
      ensures Valid() && old(log) < log && !(ok && conflict) && sent == old(sent) + [PutConfigMap(cm)]
      ensures ok ==> old(w.server.cm).Some? && old(w.server.cm).value.version == cm.version
      ensures conflict ==> old(w.server.cm).Some? && old(w.server.cm).value.version != cm.version
      ensures At(r, if conflict && !retried then Refetch else Returned(ok))
    {
      hide Initial, Exec;
      var x: Outcome := *;
      ok := x.Done? && w.server.cm.Some? && w.server.cm.value.version == cm.version;
      conflict := x.Done? && w.server.cm.Some? && w.server.cm.value.version != cm.version;
      Do(r, PutConfigMap(cm), x, "");
    }

    /** ensureHelperTars: write only on a difference, retry once after a conflict. */
    method EnsureHelperTars(r: Name, key: string, cm: ConfigMap) returns (ok: bool)
      requires Valid() && At(r, Decide(b, b.tars(r), Found(key), Found(cm)))
      modifies this
      ensures Begun(log, r) == Begun(old(log), r)
      ensures Valid() && old(log) <= log && At(r, Returned(ok))
      ensures Synced(cm, b.tars(r)) ==> ok && w == old(w) && sent == old(sent)
      ensures !Synced(cm, b.tars(r)) ==> Syncs(sent, old(sent), cm, b.tars(r))
    {
      hide Initial, Exec;
      var tars := b.tars(r);
      if BinaryData(cm, LINUX_TAR) == tars.linux && BinaryData(cm, WINDOWS_TAR) == tars.windows {
        return true;
      }
      var conflict;
      ok, conflict := Update(r, WithTars(cm, tars), false);
      if conflict {
        var x: Outcome := *;
        var again := Seen(x, w.server.cm);
        Do(r, LookForConfigMap, x, "");
        if !again.Found? {
          return false;
        }
        ok, conflict := Update(r, WithTars(again.value, tars), true);
        assert sent == old(sent) + [PutConfigMap(WithTars(cm, tars)), LookForConfigMap, PutConfigMap(WithTars(again.value, tars))];
      }
    }

    /** Delete of an orphaned ConfigMap, by name only; NotFound counts as success. */
    method DeleteConfigMap(r: Name) returns (ok: bool)
      requires Valid() && At(r, DropConfigMap)
      modifies this
      ensures Begun(log, r) == Begun(old(log), r)
      ensures Valid() && old(log) < log && At(r, if ok then StoreSecret else Returned(false))
      ensures sent == old(sent) + [DropIt]
    {
      hide Initial, Exec;
      var x: Outcome := *;
      ok := x.Done?;
      Do(r, DropIt, x, "");
    }

    /** EnsureOperatorResources */
    method EnsureOperatorResources(r: Name) returns (ok: bool, ghost secret: Got<string>, ghost cm: Got<ConfigMap>)
      requires Valid() && At(r, ReadSecret)
      modifies this
      ensures Valid() && old(log) < log && At(r, Returned(ok)) && Begun(log, r) == Begun(old(log), r)
      ensures ServerOk(b, w.server) && (ok ==> w.server.secret.Some?)
      ensures secret.Found? ==> old(w.server.secret) == Some(secret.value)
      ensures secret.Missing? ==> old(w.server.secret).None?
      ensures Repairs(sent, old(sent), b, b.tars(r), secret, cm, ok)
    {
      hide Initial, Exec, PublicKey, Repairs;
      ok, secret, cm := Ensure(r);
      Reachable(b, start, log);
      assert PcOk(b, w.server, Returned(ok));
    }

    /** Its body: two reads, then one of four repairs. */
    method Ensure(r: Name) returns (ok: bool, ghost asked: Got<string>, ghost shown: Got<ConfigMap>)
      requires Valid() && At(r, ReadSecret)
      modifies this
      ensures Valid() && old(log) < log && At(r, Returned(ok)) && Begun(log, r) == Begun(old(log), r)
      ensures asked.Found? ==> old(w.server.secret) == Some(asked.value)
      ensures asked.Missing? ==> old(w.server.secret).None?
      ensures Repairs(sent, old(sent), b, b.tars(r), asked, shown, ok)
    {
      hide Initial, Exec, PublicKey, Syncs, Synced, Begun;
      var secret := GetSecret(r);
      var cm := GetConfigMap(r, secret);
      asked, shown := secret, cm;
      assert sent == old(sent) + [LookForSecret, LookForConfigMap];
      if secret.Found? && cm.Found? {
        ok := EnsureHelperTars(r, secret.value, cm.value);
        return;
      }
      if secret.Unknown? || cm.Unknown? {
        return false, asked, shown;
      }
      if secret.Found? {
        ok := CreateConfigMapFromSecret(r, secret.value);
        return;
      }
      if cm.Found? {
        var gone := DeleteConfigMap(r);
        if !gone {
          return false, asked, shown;
        }
      }
      ghost var looked, key := sent, "";
      ok, key := CreateKeypairAndConfigMap(r);
      assert Generates(sent, looked, b, key, ok);
    }

    /** main: up to five attempts; an operator that comes up has its private key. */
    method StartUp(r: Name) returns (ok: bool)
      requires Valid() && r !in w.replicas
      modifies this
      ensures Valid() && ServerOk(b, w.server)
      ensures At(r, Returned(ok)) && (ok ==> w.server.secret.Some?)
      ensures old(w.server.secret).Some? ==> w.server.secret == old(w.server.secret)
      ensures 1 <= Begun(log, r) - Begun(old(log), r) <= 5 && (!ok ==> Begun(log, r) == Begun(old(log), r) + 5)
    {
      hide Initial, Exec, PublicKey, Next, Repairs;
      ghost var before := log;
      var i := 0;
      ok := false;
      while i < ATTEMPTS && !ok
        invariant Valid() && before <= log && 0 <= i <= ATTEMPTS && Begun(log, r) == Begun(before, r) + i
        invariant if i == 0 then r !in w.replicas && !ok else At(r, Returned(ok))
        invariant i > 0 ==> ServerOk(b, w.server) && (ok ==> w.server.secret.Some?)
      {
        Take(Begin(r));
        ghost var secret, cm;
        ok, secret, cm := EnsureOperatorResources(r);
        i := i + 1;
      }
      if old(w.server.secret).Some? {
        SecretIsForever(b, start, before, log[|before|..]);
        assert before + log[|before|..] == log;
      }
    }
  }
}
