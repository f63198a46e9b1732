/** What the installer process remembers between requests: the kill switch of installers.js and the server secret of
    peerdist.js. */
module ServerState {
  import opened Prelude
  import opened Bytes
  import opened PeerDist

  // ----- The kill switch

  const TTL_MS: nat := 3000

  /** The setting as a read of service.yaml at some time would find it; None when the read fails. */
  type Setting = nat -> Option<bool>

  datatype Cache = Cache(at: nat, value: bool)

  function Refresh(setting: Setting, c: Cache, now: nat): Cache {
    if now - c.at < TTL_MS then c
    else Cache(now, if setting(now).Some? then setting(now).value else c.value)
  }

  /** The cache after a run of calls. */
  function Calls(setting: Setting, boot: bool, times: seq<nat>): Cache {
    if times == [] then Cache(0, boot)
    else Refresh(setting, Calls(setting, boot, times[..|times| - 1]), times[|times| - 1])
  }

  predicate Ordered(times: seq<nat>) {
    forall i, j :: 0 <= i < j < |times| ==> times[i] <= times[j]
  }

  /** Every answer is the setting as it was at some call less than three seconds earlier, if it could be read then; and
      it is read anew only when the last reading is three seconds old. */
  lemma {:induction false} SettingWithinTtl(setting: Setting, boot: bool, times: seq<nat>)
    requires times != [] && Ordered(times) && times[0] >= 3000
    ensures var c, now := Calls(setting, boot, times), times[|times| - 1];
      c.at in times && c.at <= now < c.at + 3000 && (setting(c.at).Some? ==> c.value == setting(c.at).value)
    ensures var c, now := Calls(setting, boot, times), times[|times| - 1];
      var before := Calls(setting, boot, times[..|times| - 1]);
      && (c == before || (c.at == now && now - before.at >= 3000))
      && (setting(c.at).None? ==> c.value == before.value)
  {
    var init, now := times[..|times| - 1], times[|times| - 1];
    if init == [] {
      assert Calls(setting, boot, init) == Cache(0, boot);
    } else {
      SettingWithinTtl(setting, boot, init);
      assert init[|init| - 1] == times[|times| - 2] && times[|times| - 2] <= now;
      assert now in times && forall t :: t in init ==> t in times;
    }
  }

  class KillSwitch {
    var at: nat
    var value: bool

    ghost function Contents(): Cache
      reads this
    {
      Cache(at, value)
    }

    constructor (boot: bool)
      ensures Contents() == Cache(0, boot)
    {
      at, value := 0, boot;
    }

    /** peerdistEnabledLive. */
    method Enabled(setting: Setting, now: nat) returns (enabled: bool)
      modifies this
      ensures Contents() == Refresh(setting, old(Contents()), now) && enabled == value
    {
      if now - at < TTL_MS {
        return value;
      }
      at := now;
      var read := setting(now);
      if read.Some? {
        value := read.value;
      }
      enabled := value;
    }
  }

  // ----- The server secret

  type Secret = k: Bytes | |k| == SERVER_SECRET_BYTES witness seq(32, _ => 0)

  /** The process cache and the secret file. */
  datatype Store = Store(cached: Option<Secret>, file: Option<Bytes>)

  /** getServerSecret draws `random` when it finds no usable file, or cannot read it, and tries to keep it. */
  datatype Event = GetSecret(random: Secret, readable: bool, writable: bool) | Restart

  /** The stored secret; a read that fails is taken for a missing file. */
  function FileSecret(file: Option<Bytes>, readable: bool): Option<Secret> {
    if readable && file.Some? && |file.value| == SERVER_SECRET_BYTES then Some(file.value) else None
  }

  function Answer(s: Store, random: Secret, readable: bool): Secret {
    if s.cached.Some? then s.cached.value
    else if FileSecret(s.file, readable).Some? then FileSecret(s.file, readable).value
    else random
  }

  function Apply(s: Store, e: Event): Store {
    match e
    case GetSecret(random, readable, writable) =>
      Store(Some(Answer(s, random, readable)),
            if s.cached.None? && FileSecret(s.file, readable).None? && writable then Some(random) else s.file)
    case Restart => s.(cached := None)
  }

  function Run(s: Store, events: seq<Event>): Store
    decreases events
  {
    if events == [] then s else Run(Apply(s, events[0]), events[1..])
  }

  /** What the calls of a run gave, in order. */
  function Answers(s: Store, events: seq<Event>): seq<Secret>
    decreases events
  {
    if events == [] then [] else
      (if events[0].GetSecret? then [Answer(s, events[0].random, events[0].readable)] else [])
      + Answers(Apply(s, events[0]), events[1..])
  }

  /** A run can be cut anywhere. */
  lemma {:induction false} RunInTwo(s: Store, first: seq<Event>, rest: seq<Event>)
    ensures Run(s, first + rest) == Run(Run(s, first), rest)
    ensures Answers(s, first + rest) == Answers(s, first) + Answers(Run(s, first), rest)
    decreases first
  {
    if first == [] {
      assert first + rest == rest;
    } else {
      assert (first + rest)[0] == first[0] && (first + rest)[1..] == first[1..] + rest;
      RunInTwo(Apply(s, first[0]), first[1..], rest);
      hide Apply, Answer;
    }
  }

  /** The file holds the key, and nothing in memory contradicts it. */
  predicate Settled(s: Store, key: Secret) {
    s.file == Some(key) && (s.cached == None || s.cached == Some(key))
  }

  /** The first call after a restart, which cannot read the file. */
  predicate ReadsInVain(s: Store, e: Event) {
    e.GetSecret? && s.cached.None? && !e.readable
  }

  /** Some call reads the file in vain and draws another secret. */
  predicate Disturbed(s: Store, key: Secret, events: seq<Event>)
    decreases events
  {
    events != [] &&
    ((ReadsInVain(s, events[0]) && events[0].random != key) || Disturbed(Apply(s, events[0]), key, events[1..]))
  }

  predicate AllAre(answers: seq<Secret>, key: Secret) {
    forall a :: a in answers ==> a == key
  }

  lemma AllAreConcat(first: seq<Secret>, rest: seq<Secret>, key: Secret)
    ensures AllAre(first + rest, key) <==> AllAre(first, key) && AllAre(rest, key)
  {
    assert forall a :: a in first + rest <==> a in first || a in rest;
  }

  /** A stored secret is given by every call, across any restarts, exactly as long as no first call after a restart
      fails to read it: peers then keep deriving the same segment secrets. */
  lemma {:induction false} SecretNeverChangesIff(s: Store, key: Secret, events: seq<Event>)
    requires Settled(s, key)
    ensures AllAre(Answers(s, events), key) <==> !Disturbed(s, key, events)
    ensures !Disturbed(s, key, events) ==> Settled(Run(s, events), key)
    decreases events
  {
    if events == [] {
    } else {
      var e, rest := events[0], events[1..];
      if ReadsInVain(s, e) && e.random != key {
        var answers := Answers(s, events);
        assert answers[0] == e.random && answers[0] in answers && Disturbed(s, key, events);
      } else {
        SecretNeverChangesIff(Apply(s, e), key, rest);
        AllAreConcat(if e.GetSecret? then [Answer(s, e.random, e.readable)] else [], Answers(Apply(s, e), rest), key);
      }
    }
  }

  /** Such a call replaces the stored secret if it can write, and otherwise only hides it until the next restart. */
  lemma StoredSecretReplacedIff(s: Store, key: Secret, e: Event)
    requires Settled(s, key)
    ensures Apply(s, e).file != Some(key) <==> ReadsInVain(s, e) && e.writable && e.random != key
    ensures Apply(s, e).file == Some(key) ==> Settled(Apply(Apply(s, e), Restart), key)
  {}

  /** A first call with no usable file settles the secret exactly when it could write it: otherwise the secret lasts as
      long as the process. */
  lemma SettledIff(s: Store, first: Secret, writable: bool, random: Secret)
    requires s.cached == None && FileSecret(s.file, true) == None && first != random
    ensures var after := Apply(s, GetSecret(first, true, writable));
      && (writable ==> Settled(after, first))
      && Answer(after, random, true) == first
      && (Answer(Apply(after, Restart), random, true) == first <==> writable)
  {}

  class SecretStore {
    var cached: Option<Secret>
    var file: Option<Bytes>

    ghost function Contents(): Store
      reads this
    {
      Store(cached, file)
    }

    constructor (file: Option<Bytes>)
      ensures Contents() == Store(None, file)
    {
      this.cached, this.file := None, file;
    }

    method GetServerSecret(random: Secret, readable: bool, writable: bool) returns (secret: Secret)
      modifies this
      ensures Contents() == Apply(old(Contents()), GetSecret(random, readable, writable))
      ensures secret == Answer(old(Contents()), random, readable)
    {
      if cached.Some? {
        return cached.value;
      }
      var stored := FileSecret(file, readable);
      if stored.Some? {
        secret := stored.value;
      } else {
        secret := random;
        if writable {
          file := Some(secret);
        }
      }
      cached := Some(secret);
    }
  }
}
