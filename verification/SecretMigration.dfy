/**
 Moving plaintext secrets from the configuration file into the operating system's credential store.  The store may
 refuse any call, and a map may be walked in any order.
 */
module SecretMigration {
  import opened Wrappers
  import opened Hex
  import opened Pieces

  /** The UTF-8 bytes of a provider or integration name. */
  type Name = seq<Byte>

  type Values = map<Name, string>

  // ---------- markers and keys ----------

  datatype Kind = Ai | Integration

  const MARKER_PREFIX := "keyring:v1:"

  function KindText(kind: Kind): string {
    match kind
    case Ai => "ai"
    case Integration => "integration"
  }

  function StoreKey(kind: Kind, name: Name): string { KindText(kind) + ":" + ToHex(name) }

  function MarkerFor(kind: Kind, name: Name): string { MARKER_PREFIX + KindText(kind) + ":" + ToHex(name) }

  predicate IsMarker(v: string) { |v| >= |MARKER_PREFIX| && v[..|MARKER_PREFIX|] == MARKER_PREFIX }

  /** A value that has to be moved: not empty, and not a marker already. */
  predicate IsPlaintext(v: string) { v != "" && !IsMarker(v) }

  predicate NoPlaintext(m: Values) { forall name :: name in m ==> !IsPlaintext(m[name]) }

  /** Every secret has a key of its own in the store. */
  lemma StoreKeysDiffer(k1: Kind, n1: Name, k2: Kind, n2: Name)
    requires StoreKey(k1, n1) == StoreKey(k2, n2)
    ensures k1 == k2 && n1 == n2
  {
    assert StoreKey(k1, n1)[1] == KindText(k1)[1] && StoreKey(k2, n2)[1] == KindText(k2)[1];
    var t := |KindText(k1)| + 1;
    assert StoreKey(k1, n1)[t..] == ToHex(n1) && StoreKey(k2, n2)[t..] == ToHex(n2);
    ToHexInjective(n1, n2);
  }

  /** What is plaintext, and the texts of markers and keys, letter by letter. */
  lemma MarkersAre(v: string, name: Name)
    ensures IsPlaintext(v) <==> v != "" && !("keyring:v1:" <= v)
    ensures MarkerFor(Ai, name) == "keyring:v1:ai:" + ToHex(name) && !IsPlaintext(MarkerFor(Ai, name))
    ensures MarkerFor(Integration, name) == "keyring:v1:integration:" + ToHex(name)
    ensures !IsPlaintext(MarkerFor(Integration, name))
    ensures StoreKey(Ai, name) == "ai:" + ToHex(name) && StoreKey(Integration, name) == "integration:" + ToHex(name)
  {
    Regroup("keyring:v1:", "ai:", ToHex(name));
    Regroup("keyring:v1:", "integration:", ToHex(name));
  }

  // ---------- the credential store ----------

  /** The store's contents, and how many writes it has been asked for. */
  datatype Store = Store(secrets: map<string, string>, calls: nat)

  /** Which writes the store refuses, by number. */
  type Denies = nat -> bool

  function Put(denies: Denies, s: Store, key: string, v: string): Store {
    Store(if denies(s.calls) then s.secrets else s.secrets[key := v], s.calls + 1)
  }

  class SecretStore {
    var secrets: map<string, string>
    var calls: nat
    const denies: Denies

    ghost function State(): Store
      reads this
    {
      Store(secrets, calls)
    }

    constructor (secrets: map<string, string>, denies: Denies)
      ensures State() == Store(secrets, 0) && this.denies == denies
    {
      this.secrets, this.calls, this.denies := secrets, 0, denies;
    }

    method SetSecret(key: string, v: string) returns (ok: bool)
      modifies this
      ensures ok == !denies(old(calls)) && State() == Put(denies, old(State()), key, v)
    {
      ok := !denies(calls);
      calls := calls + 1;
      if ok {
        secrets := secrets[key := v];
      }
    }
  }

  // ---------- one map ----------

  datatype Outcome = Outcome(m: Values, store: Store, ok: bool, changed: bool)

  /** Walks the names from the `i`-th on, moving plaintext values into the store until a write is refused. */
  function MigrateFrom(denies: Denies, kind: Kind, order: seq<Name>, i: nat, m: Values, s: Store): Outcome
    decreases |order| - i
  {
    if i >= |order| then Outcome(m, s, true, false)
    else if order[i] !in m || !IsPlaintext(m[order[i]]) then MigrateFrom(denies, kind, order, i + 1, m, s)
    else
      var s' := Put(denies, s, StoreKey(kind, order[i]), m[order[i]]);
      if denies(s.calls) then Outcome(m, s', false, false)
      else
        var rest := MigrateFrom(denies, kind, order, i + 1, m[order[i] := MarkerFor(kind, order[i])], s');
        rest.(changed := rest.ok)
  }

  /** `order` lists the names of the map, each once. */
  ghost predicate Walks(order: seq<Name>, m: Values) {
    && (forall name :: name in m <==> name in order)
    && (forall i, j :: 0 <= i < j < |order| ==> order[i] != order[j])
  }

  function Migrate(denies: Denies, kind: Kind, order: seq<Name>, m: Values, s: Store): Outcome {
    MigrateFrom(denies, kind, order, 0, m, s)
  }

  // ---------- the fate of one name ----------

  function Read(s: Store, kind: Kind, name: Name): Option<string> {
    var key := StoreKey(kind, name);
    if key in s.secrets then Some(s.secrets[key]) else None
  }

  lemma PutElsewhere(denies: Denies, s: Store, k1: Kind, n1: Name, v: string, k2: Kind, n2: Name)
    ensures (k1, n1) != (k2, n2) ==> Read(Put(denies, s, StoreKey(k1, n1), v), k2, n2) == Read(s, k2, n2)
    ensures !denies(s.calls) ==> Read(Put(denies, s, StoreKey(k1, n1), v), k1, n1) == Some(v)
  {
    if StoreKey(k1, n1) == StoreKey(k2, n2) {
      StoreKeysDiffer(k1, n1, k2, n2);
    }
  }

  /** The name kept its value and its secret, or its plaintext value is now in the store and a marker in the map. */
  ghost predicate Fate(kind: Kind, name: Name, m: Values, s: Store, m': Values, s': Store) {
    && (name in m <==> name in m')
    && if name in m && IsPlaintext(m[name]) && m'[name] != m[name]
       then m'[name] == MarkerFor(kind, name) && Read(s', kind, name) == Some(m[name])
       else Read(s', kind, name) == Read(s, kind, name) && (name in m ==> m'[name] == m[name])
  }

  /** Wherever the walk stops, no secret is lost and no other is touched. */
  lemma {:induction false} FateOf(
      denies: Denies, kind: Kind, order: seq<Name>, i: nat, m: Values, s: Store, k: Kind, name: Name)
    ensures var r := MigrateFrom(denies, kind, order, i, m, s);
            if k == kind then Fate(kind, name, m, s, r.m, r.store) else Read(r.store, k, name) == Read(s, k, name)
    decreases |order| - i
  {
    if i < |order| {
      if order[i] !in m || !IsPlaintext(m[order[i]]) {
        FateOf(denies, kind, order, i + 1, m, s, k, name);
      } else {
        PutElsewhere(denies, s, kind, order[i], m[order[i]], k, name);
        if !denies(s.calls) {
          FateOf(denies, kind, order, i + 1, m[order[i] := MarkerFor(kind, order[i])],
                 Put(denies, s, StoreKey(kind, order[i]), m[order[i]]), k, name);
        }
      }
    }
  }

  /** A walk that is not refused leaves no plaintext behind. */
  lemma {:induction false} OkMeansClean(
      denies: Denies, kind: Kind, order: seq<Name>, i: nat, m: Values, s: Store, k: nat)
    requires MigrateFrom(denies, kind, order, i, m, s).ok && i <= k < |order|
    ensures var r := MigrateFrom(denies, kind, order, i, m, s); order[k] in r.m ==> !IsPlaintext(r.m[order[k]])
    decreases |order| - i
  {
    if order[i] !in m || !IsPlaintext(m[order[i]]) {
      FateOf(denies, kind, order, i + 1, m, s, kind, order[i]);
      if i < k {
        OkMeansClean(denies, kind, order, i + 1, m, s, k);
      }
    } else {
      var m' := m[order[i] := MarkerFor(kind, order[i])];
      var s' := Put(denies, s, StoreKey(kind, order[i]), m[order[i]]);
      FateOf(denies, kind, order, i + 1, m', s', kind, order[i]);
      if i < k {
        OkMeansClean(denies, kind, order, i + 1, m', s', k);
      }
    }
  }

  /** A walk that is refused leaves the plaintext it was refused for. */
  lemma {:induction false} RefusedOne(denies: Denies, kind: Kind, order: seq<Name>, i: nat, m: Values, s: Store)
    returns (name: Name)
    requires !MigrateFrom(denies, kind, order, i, m, s).ok
    ensures var r := MigrateFrom(denies, kind, order, i, m, s);
            name in m && IsPlaintext(m[name]) && name in r.m && r.m[name] == m[name]
    decreases |order| - i
  {
    if order[i] !in m || !IsPlaintext(m[order[i]]) {
      name := RefusedOne(denies, kind, order, i + 1, m, s);
    } else if denies(s.calls) {
      name := order[i];
    } else {
      name := RefusedOne(denies, kind, order, i + 1, m[order[i] := MarkerFor(kind, order[i])],
                         Put(denies, s, StoreKey(kind, order[i]), m[order[i]]));
    }
  }

  /** Without plaintext there is nothing to do: the store is not even asked. */
  lemma {:induction false} NothingToMove(denies: Denies, kind: Kind, order: seq<Name>, i: nat, m: Values, s: Store)
    requires NoPlaintext(m)
    ensures MigrateFrom(denies, kind, order, i, m, s) == Outcome(m, s, true, false)
    decreases |order| - i
  {
    if i < |order| {
      NothingToMove(denies, kind, order, i + 1, m, s);
    }
  }

  lemma {:induction false} UnchangedMeansSame(denies: Denies, kind: Kind, order: seq<Name>, i: nat, m: Values, s: Store)
    requires var r := MigrateFrom(denies, kind, order, i, m, s); r.ok && !r.changed
    ensures var r := MigrateFrom(denies, kind, order, i, m, s); r.m == m && r.store == s
    decreases |order| - i
  {
    if i < |order| {
      UnchangedMeansSame(denies, kind, order, i + 1, m, s);
    }
  }

  lemma {:induction false} ChangedMeansOk(denies: Denies, kind: Kind, order: seq<Name>, i: nat, m: Values, s: Store)
    ensures var r := MigrateFrom(denies, kind, order, i, m, s); r.changed ==> r.ok
    decreases |order| - i
  {
    if i < |order| && (order[i] !in m || !IsPlaintext(m[order[i]])) {
      ChangedMeansOk(denies, kind, order, i + 1, m, s);
    }
  }

  // ---------- how many writes it takes ----------

  function PlaintextNames(m: Values): set<Name> { set name | name in m && IsPlaintext(m[name]) }

  /** The store takes each of the next `n` writes. */
  predicate Accepts(denies: Denies, calls: nat, n: nat) { forall j :: calls <= j < calls + n ==> !denies(j) }

  ghost predicate AllAhead(order: seq<Name>, i: nat, m: Values) {
    forall name :: name in PlaintextNames(m) ==> exists k :: i <= k < |order| && order[k] == name
  }

  lemma MarkedIsOneLess(kind: Kind, m: Values, name: Name)
    requires name in m && IsPlaintext(m[name])
    ensures PlaintextNames(m[name := MarkerFor(kind, name)]) == PlaintextNames(m) - {name}
    ensures |PlaintextNames(m[name := MarkerFor(kind, name)])| == |PlaintextNames(m)| - 1
  {
    assert name in PlaintextNames(m);
    assert PlaintextNames(m[name := MarkerFor(kind, name)]) == PlaintextNames(m) - {name};
  }

  /** One write for each plaintext value: which order the names are walked in does not matter for success. */
  lemma {:induction false} OkIffAccepted(denies: Denies, kind: Kind, order: seq<Name>, i: nat, m: Values, s: Store)
    requires AllAhead(order, i, m)
    ensures var r := MigrateFrom(denies, kind, order, i, m, s);
            && (r.ok <==> Accepts(denies, s.calls, |PlaintextNames(m)|))
            && (r.ok ==> r.store.calls == s.calls + |PlaintextNames(m)|)
    decreases |order| - i
  {
    if i >= |order| {
      assert PlaintextNames(m) == {};
    } else if order[i] !in m || !IsPlaintext(m[order[i]]) {
      OkIffAccepted(denies, kind, order, i + 1, m, s);
    } else {
      var m' := m[order[i] := MarkerFor(kind, order[i])];
      MarkedIsOneLess(kind, m, order[i]);
      if !denies(s.calls) {
        OkIffAccepted(denies, kind, order, i + 1, m', Put(denies, s, StoreKey(kind, order[i]), m[order[i]]));
      }
    }
  }

  // ---------- which names are moved ----------

  /** How many plaintext values stand from place `i` up to place `k` of the walk. */
  function Ahead(order: seq<Name>, i: nat, k: nat, m: Values): nat
    requires i <= k <= |order|
    decreases k - i
  {
    if i == k then 0
    else (if order[i] in m && IsPlaintext(m[order[i]]) then 1 else 0) + Ahead(order, i + 1, k, m)
  }

  ghost predicate Distinct(order: seq<Name>) { forall i, j :: 0 <= i < j < |order| ==> order[i] != order[j] }

  lemma {:induction false} AheadElsewhere(order: seq<Name>, i: nat, k: nat, m: Values, at: nat, v: string)
    requires at < i <= k <= |order| && Distinct(order)
    ensures Ahead(order, i, k, m[order[at] := v]) == Ahead(order, i, k, m)
    decreases k - i
  {
    if i < k {
      AheadElsewhere(order, i + 1, k, m, at, v);
    }
  }

  /** A plaintext value is moved if and only if the store takes the write for it and those for all that come before. */
  lemma {:induction false} MovedIff(
      denies: Denies, kind: Kind, order: seq<Name>, i: nat, k: nat, m: Values, s: Store, r: Outcome)
    requires i <= k < |order| && Distinct(order) && r == MigrateFrom(denies, kind, order, i, m, s)
    requires order[k] in m && IsPlaintext(m[order[k]])
    ensures order[k] in r.m
    ensures IsPlaintext(r.m[order[k]]) <==> !Accepts(denies, s.calls, Ahead(order, i, k, m) + 1)
    decreases k - i
  {
    FateOf(denies, kind, order, i, m, s, kind, order[k]);
    if order[i] !in m || !IsPlaintext(m[order[i]]) {
      MovedIff(denies, kind, order, i + 1, k, m, s, r);
    } else if denies(s.calls) {
      assert !Accepts(denies, s.calls, Ahead(order, i, k, m) + 1);
    } else {
      var m' := m[order[i] := MarkerFor(kind, order[i])];
      var s' := Put(denies, s, StoreKey(kind, order[i]), m[order[i]]);
      var rest := MigrateFrom(denies, kind, order, i + 1, m', s');
      if i == k {
        FateOf(denies, kind, order, i + 1, m', s', kind, order[k]);
      } else {
        MovedIff(denies, kind, order, i + 1, k, m', s', rest);
        AheadElsewhere(order, i + 1, k, m, i, MarkerFor(kind, order[i]));
        OneMore(denies, s.calls, Ahead(order, i + 1, k, m) + 1);
      }
    }
  }

  lemma OneMore(denies: Denies, calls: nat, n: nat)
    requires !denies(calls)
    ensures Accepts(denies, calls, n + 1) <==> Accepts(denies, calls + 1, n)
  {}

  // ---------- the method ----------

  lemma Skipped(denies: Denies, kind: Kind, order: seq<Name>, i: nat, m: Values, s: Store)
    requires i < |order| && order[i] in m && !IsPlaintext(m[order[i]])
    ensures MigrateFrom(denies, kind, order, i, m, s) == MigrateFrom(denies, kind, order, i + 1, m, s)
  {}

  lemma Refused(denies: Denies, kind: Kind, order: seq<Name>, i: nat, m: Values, s: Store)
    requires i < |order| && order[i] in m && IsPlaintext(m[order[i]]) && denies(s.calls)
    ensures MigrateFrom(denies, kind, order, i, m, s)
         == Outcome(m, Put(denies, s, StoreKey(kind, order[i]), m[order[i]]), false, false)
  {}

  lemma Moved(denies: Denies, kind: Kind, order: seq<Name>, i: nat, m: Values, s: Store)
    requires i < |order| && order[i] in m && IsPlaintext(m[order[i]]) && !denies(s.calls)
    ensures var m' := m[order[i] := MarkerFor(kind, order[i])];
            var s' := Put(denies, s, StoreKey(kind, order[i]), m[order[i]]);
            var rest := MigrateFrom(denies, kind, order, i + 1, m', s');
            MigrateFrom(denies, kind, order, i, m, s) == rest.(changed := rest.ok)
  {}

  /** The whole walk comes to what the rest of it comes to, if so far there were changes or not. */
  ghost predicate OnTrack(whole: Outcome, rest: Outcome, changed: bool) {
    && whole.m == rest.m && whole.store == rest.store && whole.ok == rest.ok
    && whole.changed == (whole.ok && (changed || rest.changed))
  }

  /** `migrate_plaintext_secret_map`: walks a snapshot of the entries, changing the map as it goes. */
  method MigrateMap(m: Values, kind: Kind, order: seq<Name>, store: SecretStore)
    returns (m': Values, ok: bool, changed: bool)
    requires Walks(order, m)
    modifies store
    ensures Outcome(m', store.State(), ok, changed) == Migrate(store.denies, kind, order, m, old(store.State()))
  {
    ghost var whole := Migrate(store.denies, kind, order, m, store.State());
    ChangedMeansOk(store.denies, kind, order, 0, m, store.State());
    m', ok, changed := m, true, false;
    for i := 0 to |order|
      invariant m'.Keys == m.Keys
      invariant forall k :: i <= k < |order| ==> order[k] in m && m'[order[k]] == m[order[k]]
      invariant OnTrack(whole, MigrateFrom(store.denies, kind, order, i, m', store.State()), changed)
    {
      var name := order[i];
      var v := m[name];
      ghost var before := store.State();
      if !IsPlaintext(v) {
        Skipped(store.denies, kind, order, i, m', before);
        continue;
      }
      var stored := store.SetSecret(StoreKey(kind, name), v);
      if !stored {
        Refused(store.denies, kind, order, i, m', before);
        return m', false, false;
      }
      Moved(store.denies, kind, order, i, m', before);
      m' := m'[name := MarkerFor(kind, name)];
      changed := true;
    }
  }

  // ---------- the configuration ----------

  const CHAIN_ID: nat := 40204
  const DEFAULT_RPC_PORT: nat := 8545
  const LEGACY_RPC_PORT: nat := DEFAULT_RPC_PORT + 10_000

  /** The fields that loading looks at. */
  datatype Config = Config(aiKeys: Values, tokens: Values, network: string, chainId: nat, rpcPort: nat)

  /** `chain_id_for_network`: there is one chain, whatever the network is called. */
  function ChainIdFor(network: string): nat { CHAIN_ID }

  /** The order in which each of the two maps is walked. */
  datatype Orders = Orders(ai: seq<Name>, tokens: seq<Name>)

  ghost predicate WalksBoth(o: Orders, c: Config) { Walks(o.ai, c.aiKeys) && Walks(o.tokens, c.tokens) }

  function ValuesOf(c: Config, kind: Kind): Values {
    match kind
    case Ai => c.aiKeys
    case Integration => c.tokens
  }

  predicate Sanitized(c: Config) { NoPlaintext(c.aiKeys) && NoPlaintext(c.tokens) }

  datatype Migrated = Migrated(config: Config, store: Store, ok: bool, changed: bool)

  /** `migrate_plaintext_secrets`: the second map is not touched when the first one fails. */
  function MigrateBoth(denies: Denies, o: Orders, c: Config, s: Store): Migrated {
    var a := Migrate(denies, Ai, o.ai, c.aiKeys, s);
    if !a.ok then Migrated(c.(aiKeys := a.m), a.store, false, false) else
    var t := Migrate(denies, Integration, o.tokens, c.tokens, a.store);
    Migrated(c.(aiKeys := a.m, tokens := t.m), t.store, t.ok, t.ok && (a.changed || t.changed))
  }

  function WithoutPlaintext(m: Values): Values { map name | name in m && !IsPlaintext(m[name]) :: m[name] }

  function Dropped(c: Config): Config { c.(aiKeys := WithoutPlaintext(c.aiKeys), tokens := WithoutPlaintext(c.tokens)) }

  /** The getters of both kinds: only a marker leads to the store. */
  function Secret(c: Config, s: Store, kind: Kind, name: Name): Option<string> {
    if name in ValuesOf(c, kind) && IsMarker(ValuesOf(c, kind)[name]) then Read(s, kind, name) else None
  }

  /** What the getters give, in terms of the texts. */
  lemma SecretMeans(c: Config, s: Store, name: Name, v: string)
    ensures Secret(c, s, Ai, name) == Some(v) <==>
              && name in c.aiKeys && "keyring:v1:" <= c.aiKeys[name]
              && "ai:" + ToHex(name) in s.secrets && s.secrets["ai:" + ToHex(name)] == v
    ensures Secret(c, s, Integration, name) == Some(v) <==>
              && name in c.tokens && "keyring:v1:" <= c.tokens[name]
              && "integration:" + ToHex(name) in s.secrets && s.secrets["integration:" + ToHex(name)] == v
  {
    MarkersAre(v, name);
  }

  /** Network fields from older versions are put right; the flag says whether that changed anything. */
  function Canonical(c: Config): (Config, bool) {
    var named :=
      if c.chainId == ChainIdFor(c.network) then c
      else if c.chainId == CHAIN_ID && c.network == "devnet" then c.(network := "testnet")
      else c.(chainId := ChainIdFor(c.network));
    (named.(rpcPort := if c.rpcPort == LEGACY_RPC_PORT then DEFAULT_RPC_PORT else c.rpcPort),
     c.chainId != ChainIdFor(c.network) || c.rpcPort == LEGACY_RPC_PORT)
  }

  /** What loading gives: the configuration in memory, the store, and what is rewritten, if anything. */
  datatype Loaded = Loaded(config: Config, store: Store, written: Option<Config>)

  function Loading(denies: Denies, o: Orders, file: Config, s: Store): Loaded {
    var (c, fixed) := Canonical(file);
    var r := MigrateBoth(denies, o, c, s);
    var config := if r.ok then r.config else Dropped(r.config);
    Loaded(config, r.store, if fixed || !r.ok || r.changed then Some(config) else None)
  }

  /** `save`: works on a copy, and writes nothing when the store refuses. */
  function Saving(denies: Denies, o: Orders, c: Config, s: Store): (Store, Option<Config>) {
    var r := MigrateBoth(denies, o, c, s);
    (r.store, if r.ok then Some(r.config) else None)
  }

  /** The entry now shows that its secret is in the store. */
  function Marked(c: Config, kind: Kind, name: Name): Config {
    match kind
    case Ai => c.(aiKeys := c.aiKeys[name := MarkerFor(kind, name)])
    case Integration => c.(tokens := c.tokens[name := MarkerFor(kind, name)])
  }

  class AppConfig {
    var aiKeys: Values
    var tokens: Values
    var network: string
    var chainId: nat
    var rpcPort: nat

    ghost function Contents(): Config
      reads this
    {
      Config(aiKeys, tokens, network, chainId, rpcPort)
    }

    constructor (c: Config)
      ensures Contents() == c
    {
      aiKeys, tokens, network, chainId, rpcPort := c.aiKeys, c.tokens, c.network, c.chainId, c.rpcPort;
    }

    method MigratePlaintextSecrets(o: Orders, store: SecretStore) returns (ok: bool, changed: bool)
      requires WalksBoth(o, Contents())
      modifies this, store
      ensures Migrated(Contents(), store.State(), ok, changed)
                == MigrateBoth(store.denies, o, old(Contents()), old(store.State()))
    {
      var first;
      aiKeys, ok, first := MigrateMap(aiKeys, Ai, o.ai, store);
      if !ok {
        return false, false;
      }
      tokens, ok, changed := MigrateMap(tokens, Integration, o.tokens, store);
      changed := ok && (first || changed);
    }

    method DropPlaintextSecretValues()
      modifies this
      ensures Contents() == Dropped(old(Contents()))
    {
      aiKeys := map name | name in aiKeys && !IsPlaintext(aiKeys[name]) :: aiKeys[name];
      tokens := map name | name in tokens && !IsPlaintext(tokens[name]) :: tokens[name];
    }

    /** `load_from_path_with_secret_store`, after the file has been read and parsed. */
    method Load(o: Orders, store: SecretStore) returns (written: Option<Config>)
      requires WalksBoth(o, Contents())
      modifies this, store
      ensures Loaded(Contents(), store.State(), written)
                == Loading(store.denies, o, old(Contents()), old(store.State()))
    {
      var needsSave := false;
      var called, id := network, chainId;
      if id != ChainIdFor(called) {
        if id == CHAIN_ID && called == "devnet" {
          called := "testnet";
        } else {
          id := ChainIdFor(called);
        }
        needsSave := true;
      }
      network, chainId := called, id;
      if rpcPort == LEGACY_RPC_PORT {
        rpcPort := DEFAULT_RPC_PORT;
        needsSave := true;
      }
      var ok, changed := MigratePlaintextSecrets(o, store);
      if ok {
        needsSave := needsSave || changed;
      } else {
        DropPlaintextSecretValues();
        needsSave := true;
      }
      written := if needsSave then Some(Config(aiKeys, tokens, network, chainId, rpcPort)) else None;
    }

    /** `save_to_path_with_secret_store`: the configuration in memory keeps what it holds. */
    method Save(o: Orders, store: SecretStore) returns (written: Option<Config>)
      requires WalksBoth(o, Contents())
      modifies store
      ensures (store.State(), written) == Saving(store.denies, o, Contents(), old(store.State()))
    {
      var clean := new AppConfig(Config(aiKeys, tokens, network, chainId, rpcPort));
      var ok, changed := clean.MigratePlaintextSecrets(o, store);
      written :=
        if ok then Some(Config(clean.aiKeys, clean.tokens, clean.network, clean.chainId, clean.rpcPort)) else None;
    }

    /** `set_ai_key`, `set_integration_token`: the marker is set only after the store took the secret. */
    method SetSecret(kind: Kind, name: Name, v: string, store: SecretStore) returns (ok: bool)
      modifies this, store
      ensures ok == !store.denies(old(store.calls))
      ensures store.State() == Put(store.denies, old(store.State()), StoreKey(kind, name), v)
      ensures Contents() == if ok then Marked(old(Contents()), kind, name) else old(Contents())
    {
      ok := store.SetSecret(StoreKey(kind, name), v);
      if !ok {
        return;
      }
      match kind {
        case Ai => aiKeys := aiKeys[name := MarkerFor(kind, name)];
        case Integration => tokens := tokens[name := MarkerFor(kind, name)];
      }
    }
  }

  // ---------- what setting promises ----------

  /** A secret that has been set is what its getter gives; all other getters give what they gave before. */
  lemma SetThenGet(denies: Denies, c: Config, s: Store, kind: Kind, name: Name, v: string, k: Kind, n: Name)
    requires !denies(s.calls)
    ensures Secret(Marked(c, kind, name), Put(denies, s, StoreKey(kind, name), v), k, n)
         == if k == kind && n == name then Some(v) else Secret(c, s, k, n)
  {
    PutElsewhere(denies, s, kind, name, v, k, n);
  }

  // ---------- what migration promises ----------

  /** A secret of the configuration: a plaintext value. */
  predicate HasPlaintext(c: Config, kind: Kind, name: Name) {
    name in ValuesOf(c, kind) && IsPlaintext(ValuesOf(c, kind)[name])
  }

  /** The store's keys of one kind are not touched while the other kind's map is walked. */
  lemma FateInBoth(denies: Denies, o: Orders, c: Config, s: Store, kind: Kind, name: Name)
    ensures var r := MigrateBoth(denies, o, c, s);
            Fate(kind, name, ValuesOf(c, kind), s, ValuesOf(r.config, kind), r.store)
  {
    var a := Migrate(denies, Ai, o.ai, c.aiKeys, s);
    FateOf(denies, Ai, o.ai, 0, c.aiKeys, s, kind, name);
    if a.ok {
      FateOf(denies, Integration, o.tokens, 0, c.tokens, a.store, kind, name);
    }
  }

  /** Whatever the store refuses, every secret is afterwards where it was, or behind its getter; names are kept. */
  lemma NoSecretIsLost(denies: Denies, o: Orders, c: Config, s: Store, kind: Kind, name: Name)
    requires HasPlaintext(c, kind, name)
    ensures var r := MigrateBoth(denies, o, c, s);
            var v := ValuesOf(c, kind)[name];
            name in ValuesOf(r.config, kind)
            && (ValuesOf(r.config, kind)[name] == v || Secret(r.config, r.store, kind, name) == Some(v))
  {
    FateInBoth(denies, o, c, s, kind, name);
  }

  /** Secrets that were in the store before stay behind their getters. */
  lemma OldSecretsStay(denies: Denies, o: Orders, c: Config, s: Store, kind: Kind, name: Name)
    requires !HasPlaintext(c, kind, name)
    ensures var r := MigrateBoth(denies, o, c, s); Secret(r.config, r.store, kind, name) == Secret(c, s, kind, name)
  {
    FateInBoth(denies, o, c, s, kind, name);
  }

  lemma CleanMap(denies: Denies, kind: Kind, order: seq<Name>, m: Values, s: Store)
    requires Walks(order, m) && Migrate(denies, kind, order, m, s).ok
    ensures NoPlaintext(Migrate(denies, kind, order, m, s).m)
  {
    var r := Migrate(denies, kind, order, m, s);
    forall name | name in r.m
      ensures !IsPlaintext(r.m[name])
    {
      FateOf(denies, kind, order, 0, m, s, kind, name);
      assert name in order;
      var k :| 0 <= k < |order| && order[k] == name;
      OkMeansClean(denies, kind, order, 0, m, s, k);
    }
  }

  /** A successful migration leaves no plaintext, the same names, and every secret behind its getter. */
  lemma SuccessMovesEverything(denies: Denies, o: Orders, c: Config, s: Store)
    requires WalksBoth(o, c) && MigrateBoth(denies, o, c, s).ok
    ensures var r := MigrateBoth(denies, o, c, s);
            && Sanitized(r.config)
            && (forall kind, name :: name in ValuesOf(r.config, kind) <==> name in ValuesOf(c, kind))
            && (forall kind, name :: HasPlaintext(c, kind, name) ==>
                  Secret(r.config, r.store, kind, name) == Some(ValuesOf(c, kind)[name]))
  {
    var r := MigrateBoth(denies, o, c, s);
    var a := Migrate(denies, Ai, o.ai, c.aiKeys, s);
    CleanMap(denies, Ai, o.ai, c.aiKeys, s);
    CleanMap(denies, Integration, o.tokens, c.tokens, a.store);
    forall kind, name
      ensures name in ValuesOf(r.config, kind) <==> name in ValuesOf(c, kind)
      ensures HasPlaintext(c, kind, name) ==> Secret(r.config, r.store, kind, name) == Some(ValuesOf(c, kind)[name])
    {
      FateInBoth(denies, o, c, s, kind, name);
    }
  }

  /** The number of secrets the configuration file holds in the clear. */
  function PlaintextCount(c: Config): nat { |PlaintextNames(c.aiKeys)| + |PlaintextNames(c.tokens)| }

  /** A migration succeeds if and only if the store takes as many writes as there are plaintext values. */
  lemma MigratesIffAccepted(denies: Denies, o: Orders, c: Config, s: Store)
    requires WalksBoth(o, c)
    ensures MigrateBoth(denies, o, c, s).ok <==> Accepts(denies, s.calls, PlaintextCount(c))
  {
    OkIffAccepted(denies, Ai, o.ai, 0, c.aiKeys, s);
    var a := Migrate(denies, Ai, o.ai, c.aiKeys, s);
    OkIffAccepted(denies, Integration, o.tokens, 0, c.tokens, a.store);
    if a.ok {
      var p, q := |PlaintextNames(c.aiKeys)|, |PlaintextNames(c.tokens)|;
      BothAccepted(denies, s.calls, p, q);
    }
  }

  /** Saving never writes plaintext, and what it writes has every secret behind its getter. */
  lemma SavedFileIsSanitized(denies: Denies, o: Orders, c: Config, s: Store)
    requires WalksBoth(o, c) && Saving(denies, o, c, s).1.Some?
    ensures var (s', file) := Saving(denies, o, c, s);
            Sanitized(file.value)
            && (forall kind, name :: HasPlaintext(c, kind, name) ==>
                  Secret(file.value, s', kind, name) == Some(ValuesOf(c, kind)[name]))
  {
    SuccessMovesEverything(denies, o, c, s);
  }

  /** Loading leaves no plaintext in memory, nor in what it writes. */
  lemma LoadedIsSanitized(denies: Denies, o: Orders, file: Config, s: Store)
    requires WalksBoth(o, file)
    ensures var l := Loading(denies, o, file, s);
            Sanitized(l.config) && (l.written.Some? ==> l.written.value == l.config)
            && (l.written.None? ==> l.config == file && l.store == s)
  {
    var (c, fixed) := Canonical(file);
    var r := MigrateBoth(denies, o, c, s);
    if r.ok {
      SuccessMovesEverything(denies, o, c, s);
      if !r.changed {
        UnchangedMeansSame(denies, Ai, o.ai, 0, c.aiKeys, s);
        UnchangedMeansSame(denies, Integration, o.tokens, 0, c.tokens, s);
      }
    }
  }

  /** Loading what a load has left changes nothing, writes nothing, and does not ask the store for anything. */
  lemma LoadIsFixpoint(denies: Denies, o: Orders, file: Config, s: Store, again: Orders)
    requires WalksBoth(o, file)
    ensures var l := Loading(denies, o, file, s);
            Loading(denies, again, l.config, l.store) == Loaded(l.config, l.store, None)
  {
    var l := Loading(denies, o, file, s);
    LoadedIsSanitized(denies, o, file, s);
    NothingToMove(denies, Ai, again.ai, 0, l.config.aiKeys, l.store);
    NothingToMove(denies, Integration, again.tokens, 0, l.config.tokens, l.store);
  }

  /** After loading, all secrets of the file are behind their getters. */
  ghost predicate AllKept(denies: Denies, o: Orders, file: Config, s: Store) {
    var l := Loading(denies, o, file, s);
    forall kind, name :: HasPlaintext(file, kind, name) ==>
      Secret(l.config, l.store, kind, name) == Some(ValuesOf(file, kind)[name])
  }

  /**
   Loading is where secrets can be lost: after a refusal the plaintext that was not moved is dropped.  All secrets
   survive a load if and only if the store takes one write for each of them.
   */
  lemma LoadKeepsAllIffAccepted(denies: Denies, o: Orders, file: Config, s: Store)
    requires WalksBoth(o, file)
    ensures AllKept(denies, o, file, s) <==> Accepts(denies, s.calls, PlaintextCount(file))
  {
    var c := Canonical(file).0;
    var r := MigrateBoth(denies, o, c, s);
    MigratesIffAccepted(denies, o, c, s);
    if r.ok {
      SuccessMovesEverything(denies, o, c, s);
    } else {
      var a := Migrate(denies, Ai, o.ai, c.aiKeys, s);
      var kind := if a.ok then Integration else Ai;
      var name;
      if a.ok {
        name := RefusedOne(denies, Integration, o.tokens, 0, c.tokens, a.store);
      } else {
        name := RefusedOne(denies, Ai, o.ai, 0, c.aiKeys, s);
      }
      assert HasPlaintext(file, kind, name);
      assert name !in ValuesOf(Loading(denies, o, file, s).config, kind);
    }
  }

  // ---------- every name after a load ----------

  /** The number, from 1 on, of the write for the `k`-th name of one kind: keys go first, then tokens. */
  function WriteNumber(o: Orders, c: Config, kind: Kind, k: nat): nat
    requires k < |OrderOf(o, kind)|
  {
    match kind
    case Ai => Ahead(o.ai, 0, k, c.aiKeys) + 1
    case Integration => |PlaintextNames(c.aiKeys)| + Ahead(o.tokens, 0, k, c.tokens) + 1
  }

  function OrderOf(o: Orders, kind: Kind): seq<Name> {
    match kind
    case Ai => o.ai
    case Integration => o.tokens
  }

  lemma MovedInBoth(denies: Denies, o: Orders, c: Config, s: Store, kind: Kind, k: nat, name: Name)
    requires WalksBoth(o, c) && k < |OrderOf(o, kind)| && name == OrderOf(o, kind)[k] && HasPlaintext(c, kind, name)
    ensures var r := MigrateBoth(denies, o, c, s);
            HasPlaintext(r.config, kind, name) <==> !Accepts(denies, s.calls, WriteNumber(o, c, kind, k))
  {
    var a := Migrate(denies, Ai, o.ai, c.aiKeys, s);
    OkIffAccepted(denies, Ai, o.ai, 0, c.aiKeys, s);
    match kind
    case Ai => MovedIff(denies, Ai, o.ai, 0, k, c.aiKeys, s, a);
    case Integration =>
      var p, q := |PlaintextNames(c.aiKeys)|, Ahead(o.tokens, 0, k, c.tokens) + 1;
      BothAccepted(denies, s.calls, p, q);
      if a.ok {
        var t := Migrate(denies, Integration, o.tokens, c.tokens, a.store);
        MovedIff(denies, Integration, o.tokens, 0, k, c.tokens, a.store, t);
      }
  }

  lemma BothAccepted(denies: Denies, calls: nat, p: nat, q: nat)
    ensures Accepts(denies, calls, p + q) <==> Accepts(denies, calls, p) && Accepts(denies, calls + p, q)
  {}

  /**
   Every name after a load.  A name without a value has none; a value that is not plaintext is kept, and its getter
   gives what it gave.
   */
  lemma OthersAfterLoad(denies: Denies, o: Orders, file: Config, s: Store, kind: Kind, name: Name, l: Loaded)
    requires WalksBoth(o, file) && l == Loading(denies, o, file, s)
    ensures name !in ValuesOf(file, kind) ==> name !in ValuesOf(l.config, kind)
    ensures name in ValuesOf(file, kind) && !IsPlaintext(ValuesOf(file, kind)[name]) ==>
              && name in ValuesOf(l.config, kind) && ValuesOf(l.config, kind)[name] == ValuesOf(file, kind)[name]
              && Secret(l.config, l.store, kind, name) == Secret(file, s, kind, name)
  {
    FateInBoth(denies, o, Canonical(file).0, s, kind, name);
  }

  /**
   The `k`-th name of its kind has a plaintext value: if the store takes the write for it and all earlier ones, its
   marker is there and its getter gives the value; otherwise, and only then, the name is gone.
   */
  lemma PlaintextAfterLoad(
      denies: Denies, o: Orders, file: Config, s: Store, kind: Kind, k: nat, name: Name, l: Loaded)
    requires WalksBoth(o, file) && l == Loading(denies, o, file, s)
    requires k < |OrderOf(o, kind)| && name == OrderOf(o, kind)[k] && HasPlaintext(file, kind, name)
    ensures name in ValuesOf(l.config, kind) <==> Accepts(denies, s.calls, WriteNumber(o, file, kind, k))
    ensures name in ValuesOf(l.config, kind) ==>
              && ValuesOf(l.config, kind)[name] == MarkerFor(kind, name)
              && Secret(l.config, l.store, kind, name) == Some(ValuesOf(file, kind)[name])
  {
    var c := Canonical(file).0;
    MovedInBoth(denies, o, c, s, kind, k, name);
    FateInBoth(denies, o, c, s, kind, name);
    LoadedIsSanitized(denies, o, file, s);
  }

  lemma NoPlaintextIffNone(m: Values)
    ensures NoPlaintext(m) <==> |PlaintextNames(m)| == 0
  {
    if name :| name in m && IsPlaintext(m[name]) {
      assert name in PlaintextNames(m);
    }
    if |PlaintextNames(m)| != 0 {
      var name :| name in PlaintextNames(m);
    }
  }

  /** The file is rewritten exactly when it held a secret in the clear, a wrong chain id, or the retired port. */
  lemma WritesExactlyWhen(denies: Denies, o: Orders, file: Config, s: Store)
    requires WalksBoth(o, file)
    ensures Loading(denies, o, file, s).written.Some?
       <==> !Sanitized(file) || file.chainId != 40204 || file.rpcPort == 18545
  {
    LoadedIsSanitized(denies, o, file, s);
    var c := Canonical(file).0;
    if Sanitized(file) {
      NothingToMove(denies, Ai, o.ai, 0, c.aiKeys, s);
      NothingToMove(denies, Integration, o.tokens, 0, c.tokens, s);
    }
  }

  /**
   Saving writes a file exactly when the store takes a write for each secret.  The file has the names of the
   configuration: its markers and empty values as they are, and a marker for each secret; the rest is the same.
   */
  lemma SavedFileIs(denies: Denies, o: Orders, c: Config, s: Store, kind: Kind, name: Name, file: Option<Config>)
    requires WalksBoth(o, c) && file == Saving(denies, o, c, s).1
    ensures file.Some? <==> Accepts(denies, s.calls, PlaintextCount(c))
    ensures file.Some? ==>
              && file.value.network == c.network && file.value.chainId == c.chainId && file.value.rpcPort == c.rpcPort
              && (name in ValuesOf(file.value, kind) <==> name in ValuesOf(c, kind))
              && (name in ValuesOf(c, kind) ==>
                    ValuesOf(file.value, kind)[name]
                      == if HasPlaintext(c, kind, name) then MarkerFor(kind, name) else ValuesOf(c, kind)[name])
  {
    MigratesIffAccepted(denies, o, c, s);
    FateInBoth(denies, o, c, s, kind, name);
    if file.Some? {
      SuccessMovesEverything(denies, o, c, s);
    }
  }

  /** A store that refuses, and one plaintext key: the load drops it. */
  lemma RefusedKeyIsDropped(denies: Denies, o: Orders, file: Config, s: Store, name: Name, key: string)
    requires IsPlaintext(key) && denies(s.calls) && WalksBoth(o, file)
    requires file == Config(map[name := key], map[], "testnet", CHAIN_ID, DEFAULT_RPC_PORT)
    ensures !AllKept(denies, o, file, s) && Loading(denies, o, file, s).config.aiKeys == map[]
  {
    assert PlaintextNames(file.aiKeys) == {name};
    LoadKeepsAllIffAccepted(denies, o, file, s);
    LoadedIsSanitized(denies, o, file, s);
    FateInBoth(denies, o, file, s, Ai, name);
  }

  // ---------- the file on disk ----------

  /** What the file holds after a load whose rewrite, if there was one, succeeded or not. */
  function FileAfter(file: Config, l: Loaded, writeOk: bool): Config {
    if l.written.Some? && writeOk then l.written.value else file
  }

  /** After a load the file holds no plaintext if and only if it held none before or could be rewritten. */
  lemma FileIsCleanIff(denies: Denies, o: Orders, file: Config, s: Store, writeOk: bool)
    requires WalksBoth(o, file)
    ensures Sanitized(FileAfter(file, Loading(denies, o, file, s), writeOk)) <==> Sanitized(file) || writeOk
  {
    LoadedIsSanitized(denies, o, file, s);
  }

  /** Loading never renames the network: the chain id that its check for that looks for is not the wrong one. */
  lemma NetworkIsKept(denies: Denies, o: Orders, file: Config, s: Store)
    ensures var l := Loading(denies, o, file, s);
            && l.config.network == file.network && l.config.chainId == 40204
            && l.config.rpcPort == if file.rpcPort == 18545 then 8545 else file.rpcPort
  {}
}
