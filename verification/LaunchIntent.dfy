/**
 What a launch promises to run: freezing a command's directory, argv[0] and
 environment, digesting that environment, overlaying it, and describing the result.
 JSON encodings and SHA-256 enter through `Codec`, whose functions are arbitrary.
 */
module LaunchIntent {
  import opened Bytes
  import opened Maps
  import opened Transport

  const MAX_ENVIRONMENT_BYTES := 64 * 1024
  const MAX_ENVIRONMENT_ENTRIES := 1024
  const MAX_COMMAND_BYTES := 8 * 1024
  const MAX_COMMAND_ARGUMENTS := 256
  const MAX_OVERLAY_ENTRIES := 32
  const MAX_OVERLAY_BYTES := 8 * 1024
  const ENVIRONMENT_DOMAIN: Bytes := Ascii("build-graph:launch-environment:v1") + [0]

  function Ascii(s: string): (r: Bytes)
    requires forall i :: 0 <= i < |s| ==> s[i] < 128 as char
    ensures |r| == |s|
  {
    seq(|s|, i requires 0 <= i < |s| => s[i] as int)
  }

  // ----- ordered listings of maps keyed by byte strings -----

  predicate IsLeast(k: Bytes, s: set<Bytes>) {
    k in s && forall j :: j in s && j != k ==> Less(k, j)
  }

  lemma {:induction false} LeastExists(s: set<Bytes>)
    requires s != {}
    ensures exists k :: IsLeast(k, s)
  {
    var x :| x in s;
    if s == {x} {
      assert IsLeast(x, s);
    } else {
      LeastExists(s - {x});
      var k: Bytes :| IsLeast(k, s - {x});
      LessTotal(x, k);
      if Less(k, x) {
        assert IsLeast(k, s);
      } else {
        forall j | j in s && j != x ensures Less(x, j) {
          if j != k { LessTransitive(x, k, j); }
        }
        assert IsLeast(x, s);
      }
    }
  }

  lemma LeastUnique(s: set<Bytes>, a: Bytes, b: Bytes)
    requires IsLeast(a, s) && IsLeast(b, s)
    ensures a == b
  {
    if a != b {
      LessTransitive(a, b, a);
      LessIrreflexive(a);
    }
  }

  function Least(s: set<Bytes>): (k: Bytes)
    requires s != {}
    ensures IsLeast(k, s)
  {
    LeastExists(s);
    assert forall a, b :: IsLeast(a, s) && IsLeast(b, s) ==> a == b by {
      forall a, b | IsLeast(a, s) && IsLeast(b, s) ensures a == b { LeastUnique(s, a, b); }
    }
    var k :| IsLeast(k, s);
    k
  }

  /** The iteration order of a `BTreeMap`. */
  function Keys(s: set<Bytes>): (r: seq<Bytes>)
    ensures |r| == |s| && forall k :: k in r <==> k in s
    ensures InOrder(r)
  {
    if s == {} then [] else
      var k := Least(s);
      var rest := Keys(s - {k});
      LeastInFront(s, k, rest);
      [k] + rest
  }

  predicate InOrder(r: seq<Bytes>) {
    forall i, j :: 0 <= i < j < |r| ==> r[i] != r[j] && Less(r[i], r[j])
  }

  lemma LeastInFront(s: set<Bytes>, k: Bytes, rest: seq<Bytes>)
    requires IsLeast(k, s) && |rest| == |s - {k}| && (forall j :: j in rest <==> j in s - {k}) && InOrder(rest)
    ensures |[k] + rest| == |s| && (forall j :: j in [k] + rest <==> j in s) && InOrder([k] + rest)
  {
    hide Less;
    var r := [k] + rest;
    forall i, j | 0 <= i < j < |r| ensures r[i] != r[j] && Less(r[i], r[j]) {
      assert r[j] == rest[j - 1] && rest[j - 1] in rest;
      if i > 0 { assert r[i] == rest[i - 1]; }
    }
  }

  type Environment = map<Bytes, Bytes>

  function Paired(env: Environment, keys: seq<Bytes>): (r: seq<(Bytes, Bytes)>)
    requires forall k :: k in keys ==> k in env
    ensures |r| == |keys| && forall i :: 0 <= i < |r| ==> r[i] == (keys[i], env[keys[i]])
  {
    seq(|keys|, i requires 0 <= i < |keys| => assert keys[i] in keys; (keys[i], env[keys[i]]))
  }

  lemma PairedMeaning(env: Environment, keys: seq<Bytes>)
    requires forall k :: k in keys <==> k in env
    ensures var r := Paired(env, keys);
            && (forall i :: 0 <= i < |r| ==> r[i].0 in env && r[i].1 == env[r[i].0])
            && (forall k :: k in env ==> (k, env[k]) in r)
  {
    var r := Paired(env, keys);
    forall i | 0 <= i < |r| ensures r[i].0 in env && r[i].1 == env[r[i].0] { assert keys[i] in keys; }
    forall k | k in env ensures (k, env[k]) in r {
      var i :| 0 <= i < |keys| && keys[i] == k;
      assert r[i] == (k, env[k]);
    }
  }

  function Listing(env: Environment): (r: seq<(Bytes, Bytes)>)
    ensures |r| == |env|
    ensures forall i :: 0 <= i < |r| ==> r[i].0 in env && r[i].1 == env[r[i].0]
    ensures forall k :: k in env ==> (k, env[k]) in r
  {
    var keys := Keys(env.Keys);
    PairedMeaning(env, keys);
    Paired(env, keys)
  }

  /** Total bytes of names and values, whatever order they are added in. */
  ghost function EnvBytes(env: Environment): nat
    decreases |env|
  {
    if env == map[] then 0 else
      var k: Bytes :| k in env;
      assert |env - {k}| < |env| by { assert (env - {k}).Keys == env.Keys - {k}; }
      |k| + |env[k]| + EnvBytes(env - {k})
  }

  lemma {:induction false} EnvBytesRemove(env: Environment, k: Bytes)
    requires k in env
    ensures EnvBytes(env) == |k| + |env[k]| + EnvBytes(env - {k})
    decreases |env|
  {
    var l: Bytes :| l in env && EnvBytes(env) == |l| + |env[l]| + EnvBytes(env - {l});
    if k != l {
      assert (env - {l}).Keys == env.Keys - {l} && (env - {k}).Keys == env.Keys - {k};
      EnvBytesRemove(env - {l}, k);
      assert env - {l} - {k} == env - {k} - {l};
      EnvBytesRemove(env - {k}, l);
    }
  }

  lemma EnvBytesAdd(env: Environment, k: Bytes, v: Bytes)
    requires k !in env
    ensures EnvBytes(env[k := v]) == |k| + |v| + EnvBytes(env) && |env[k := v]| == |env| + 1
  {
    hide EnvBytes;
    EnvBytesRemove(env[k := v], k);
    assert env[k := v] - {k} == env;
    assert env[k := v].Keys == env.Keys + {k};
  }

  lemma {:induction false} EnvBytesMonotone(small: Environment, big: Environment)
    requires small.Keys <= big.Keys && forall k :: k in small ==> small[k] == big[k]
    ensures EnvBytes(small) <= EnvBytes(big) && |small| <= |big|
    decreases |big|
  {
    if small != big {
      var k :| k in big && k !in small;
      assert (big - {k}).Keys == big.Keys - {k};
      EnvBytesRemove(big, k);
      EnvBytesMonotone(small, big - {k});
    }
  }

  // ----- the environment digest -----

  datatype EnvironmentDigest = EnvironmentDigest(sha256: Bytes, entries: nat, bytes: nat, complete: bool)

  function PairBytes(n: Bytes, v: Bytes): Bytes {
    LittleEndian(|n|, 8) + n + LittleEndian(|v|, 8) + v
  }

  function PairsBytes(entries: seq<(Bytes, Bytes)>): Bytes {
    if entries == [] then []
    else PairBytes(entries[0].0, entries[0].1) + PairsBytes(entries[1..])
  }

  /** The byte string handed to the hasher. */
  function Preimage(entries: seq<(Bytes, Bytes)>): Bytes {
    ENVIRONMENT_DOMAIN + LittleEndian(|entries|, 8) + PairsBytes(entries)
  }

  /** Read a length-prefixed field back. */
  function TakeField(s: Bytes): Option<(Bytes, Bytes)> {
    if |s| < 8 then None
    else
      var n := FromLittleEndian(s[..8]);
      if |s| < 8 + n then None else Some((s[8..8 + n], s[8 + n..]))
  }

  function TakePairs(s: Bytes, count: nat): Option<seq<(Bytes, Bytes)>> {
    if count == 0 then (if s == [] then Some([]) else None)
    else
      match TakeField(s)
      case None => None
      case Some((name, s1)) =>
        match TakeField(s1)
        case None => None
        case Some((value, s2)) =>
          match TakePairs(s2, count - 1)
          case None => None
          case Some(rest) => Some([(name, value)] + rest)
  }

  function DecodePreimage(s: Bytes): Option<seq<(Bytes, Bytes)>> {
    var d := |ENVIRONMENT_DOMAIN|;
    if |s| < d + 8 || s[..d] != ENVIRONMENT_DOMAIN then None
    else TakePairs(s[d + 8..], FromLittleEndian(s[d..d + 8]))
  }

  predicate Word64(n: nat) {
    n < Power256(8)
  }

  predicate Encodable(entries: seq<(Bytes, Bytes)>) {
    Word64(|entries|) && forall i :: 0 <= i < |entries| ==> Word64(|entries[i].0|) && Word64(|entries[i].1|)
  }

  lemma FieldRoundTrip(field: Bytes, rest: Bytes)
    requires Word64(|field|)
    ensures TakeField(LittleEndian(|field|, 8) + field + rest) == Some((field, rest))
  {
    hide LittleEndian, FromLittleEndian, Power256;
    var s := LittleEndian(|field|, 8) + field + rest;
    assert s[..8] == LittleEndian(|field|, 8);
    LittleEndianRoundTrip(|field|, 8);
    assert s[8..8 + |field|] == field && s[8 + |field|..] == rest;
  }

  lemma PairThenMore(n: Bytes, v: Bytes, more: Bytes)
    ensures PairBytes(n, v) + more == LittleEndian(|n|, 8) + n + (LittleEndian(|v|, 8) + v + more)
  {
    hide LittleEndian;
  }

  lemma {:induction false} PairsRoundTrip(entries: seq<(Bytes, Bytes)>)
    requires forall i :: 0 <= i < |entries| ==> Word64(|entries[i].0|) && Word64(|entries[i].1|)
    ensures TakePairs(PairsBytes(entries), |entries|) == Some(entries)
    decreases |entries|
  {
    if entries != [] {
      hide LittleEndian, TakeField, Power256, PairBytes;
      var (n, v) := entries[0];
      var more := PairsBytes(entries[1..]);
      PairsRoundTrip(entries[1..]);
      FieldRoundTrip(v, more);
      var second := LittleEndian(|v|, 8) + v + more;
      FieldRoundTrip(n, second);
      PairThenMore(n, v, more);
      assert entries == [(n, v)] + entries[1..];
    }
  }

  /** The hashed byte string determines the listing: no two environments share one. */
  lemma PreimageRoundTrip(entries: seq<(Bytes, Bytes)>)
    requires Encodable(entries)
    ensures DecodePreimage(Preimage(entries)) == Some(entries)
  {
    var s, d := Preimage(entries), |ENVIRONMENT_DOMAIN|;
    assert s[..d] == ENVIRONMENT_DOMAIN;
    assert s[d..d + 8] == LittleEndian(|entries|, 8);
    assert s[d + 8..] == PairsBytes(entries);
    LittleEndianRoundTrip(|entries|, 8);
    PairsRoundTrip(entries);
  }

  lemma ListingMember(env: Environment, k: Bytes, v: Bytes)
    ensures (k, v) in Listing(env) <==> k in env && env[k] == v
  {
  }

  lemma ListingInjective(a: Environment, b: Environment)
    requires Listing(a) == Listing(b)
    ensures a == b
  {
    forall k: Bytes ensures (k in a <==> k in b) && (k in a ==> a[k] == b[k]) {
      if k in a { ListingMember(a, k, a[k]); ListingMember(b, k, a[k]); }
      if k in b { ListingMember(b, k, b[k]); ListingMember(a, k, b[k]); }
    }
  }

  predicate NameOk(n: Bytes) {
    n != [] && 0 !in n && 61 !in n
  }

  predicate EntryOk(n: Bytes, v: Bytes) {
    NameOk(n) && 0 !in v
  }

  predicate EntriesOk(env: Environment) {
    forall n :: n in env ==> EntryOk(n, env[n])
  }

  /** Serialization and hashing, as the protocol sees them. An encoder fails when the bounded size is exceeded. */
  datatype Codec = Codec(
    sha256: Bytes -> Bytes,
    event: Event -> Option<Bytes>,
    response: Bytes -> Option<Response>,
    intent: CommandIntent -> Option<Bytes>,
    finalIntent: FinalIntent -> Option<Bytes>)

  ghost function DigestEnvironment(codec: Codec, env: Environment): Option<EnvironmentDigest> {
    if |env| > MAX_ENVIRONMENT_ENTRIES || !EntriesOk(env) || EnvBytes(env) > MAX_ENVIRONMENT_BYTES then None
    else Some(EnvironmentDigest(codec.sha256(Preimage(Listing(env))), |env|, EnvBytes(env), true))
  }

  lemma {:induction false} ListingBounded(env: Environment, k: Bytes)
    requires k in env
    ensures |k| + |env[k]| <= EnvBytes(env)
  {
    EnvBytesRemove(env, k);
  }

  lemma BoundedIsEncodable(env: Environment)
    requires |env| <= MAX_ENVIRONMENT_ENTRIES && EnvBytes(env) <= MAX_ENVIRONMENT_BYTES
    ensures Encodable(Listing(env))
  {
    assert Power256(8) == 0x1_0000_0000_0000_0000 by {
      assert Power256(4) == 0x1_0000_0000;
    }
    var l := Listing(env);
    forall i | 0 <= i < |l| ensures Word64(|l[i].0|) && Word64(|l[i].1|) {
      ListingBounded(env, l[i].0);
    }
  }

  /** No collision of the hash between two byte strings of interest. */
  predicate Separates(codec: Codec, a: Bytes, b: Bytes) {
    codec.sha256(a) == codec.sha256(b) ==> a == b
  }

  lemma DigestInjective(codec: Codec, a: Environment, b: Environment)
    requires DigestEnvironment(codec, a).Some?
    requires DigestEnvironment(codec, a) == DigestEnvironment(codec, b)
    requires Separates(codec, Preimage(Listing(a)), Preimage(Listing(b)))
    ensures a == b
  {
    BoundedIsEncodable(a);
    BoundedIsEncodable(b);
    PreimageRoundTrip(Listing(a));
    PreimageRoundTrip(Listing(b));
    ListingInjective(a, b);
  }

  /** One visited entry moves from the unvisited part of `more` to the accumulated environment. */
  lemma VisitStep(start: Environment, more: Environment, left: set<Bytes>, k: Bytes, before: Environment,
                  after: Environment)
    requires start.Keys !! more.Keys && left <= more.Keys && k in left
    requires before == start + (more - left) && after == before[k := more[k]]
    ensures after == start + (more - (left - {k})) && k !in before
    ensures EnvBytes(after) == EnvBytes(before) + |k| + |more[k]| && EnvBytes(after) <= EnvBytes(start + more)
    ensures |after| == |before| + 1 && |after| <= |start + more|
  {
    VisitOne(start, more, left, k);
    VisitSome(start, more, left - {k});
    EnvBytesAdd(before, k, more[k]);
    EnvBytesMonotone(after, start + more);
  }

  lemma VisitPart(env: Environment, left: set<Bytes>, k: Bytes)
    requires left <= env.Keys && k in left
    ensures EnvBytes(env - (left - {k})) == EnvBytes(env - left) + |k| + |env[k]|
    ensures EnvBytes(env - (left - {k})) <= EnvBytes(env)
  {
    PartOne(env, left, k);
    EnvBytesAdd(env - left, k, env[k]);
    EnvBytesMonotone(env - (left - {k}), env);
  }

  method CheckEntries(env: Environment) returns (bytes: Option<nat>)
    ensures bytes == if EntriesOk(env) && EnvBytes(env) <= MAX_ENVIRONMENT_BYTES then Some(EnvBytes(env)) else None
  {
    var left, total: nat := env.Keys, 0;
    assert env - left == map[];
    while left != {}
      invariant left <= env.Keys
      invariant forall k :: k in env && k !in left ==> EntryOk(k, env[k])
      invariant total == EnvBytes(env - left) <= MAX_ENVIRONMENT_BYTES
      decreases |left|
    {
      var name :| name in left;
      VisitPart(env, left, name);
      var value := env[name];
      total := total + |name| + |value|;
      if name == [] || 0 in name || 61 in name || 0 in value || total > MAX_ENVIRONMENT_BYTES {
        assert !EntryOk(name, value) || EnvBytes(env) > MAX_ENVIRONMENT_BYTES;
        return None;
      }
      left := left - {name};
    }
    assert env - left == env;
    return Some(total);
  }

  /** The four appends of one entry continue the hashed input. */
  lemma PairAppended(input: Bytes, name: Bytes, value: Bytes, rest: Bytes)
    ensures input + LittleEndian(|name|, 8) + name + LittleEndian(|value|, 8) + value + rest
         == input + (PairBytes(name, value) + rest)
  {
    hide LittleEndian;
    var n, v := LittleEndian(|name|, 8), LittleEndian(|value|, 8);
    assert PairBytes(name, value) == n + name + v + value;
    assert input + n + name + v + value + rest == input + ((n + name + v + value) + rest);
  }

  lemma PairsStep(listing: seq<(Bytes, Bytes)>, i: nat)
    requires i < |listing|
    ensures PairsBytes(listing[i..]) == PairBytes(listing[i].0, listing[i].1) + PairsBytes(listing[i + 1..])
  {
    assert listing[i..][1..] == listing[i + 1..];
  }

  method HashInput(listing: seq<(Bytes, Bytes)>) returns (input: Bytes)
    ensures input == Preimage(listing)
  {
    hide LittleEndian, PairBytes, PairsBytes;
    input := ENVIRONMENT_DOMAIN + LittleEndian(|listing|, 8);
    assert listing[0..] == listing;
    for i := 0 to |listing|
      invariant input + PairsBytes(listing[i..]) == Preimage(listing)
    {
      var (name, value) := listing[i];
      PairsStep(listing, i);
      PairAppended(input, name, value, PairsBytes(listing[i + 1..]));
      input := input + LittleEndian(|name|, 8);
      input := input + name;
      input := input + LittleEndian(|value|, 8);
      input := input + value;
    }
    NoPairs(listing);
  }

  lemma NoPairs(listing: seq<(Bytes, Bytes)>)
    ensures PairsBytes(listing[|listing|..]) == []
  {
  }

  /** The validation loop, then the hashing loop. */
  method ComputeDigest(codec: Codec, env: Environment) returns (r: Option<EnvironmentDigest>)
    ensures r == DigestEnvironment(codec, env)
  {
    if |env| > MAX_ENVIRONMENT_ENTRIES {
      return None;
    }
    var bytes := CheckEntries(env);
    if bytes.None? {
      return None;
    }
    var input := HashInput(Listing(env));
    return Some(EnvironmentDigest(codec.sha256(input), |env|, bytes.value, true));
  }

  // ----- commands -----

  /** A `std::process::Command`: explicit settings (None removes a name), and whether inheritance was cleared. */
  datatype Command = Command(
    program: Bytes, args: seq<Bytes>, cwd: Option<Bytes>,
    env: map<Bytes, Option<Bytes>>, cleared: bool, argv0: Option<Bytes>)
  {
    function SetEnv(name: Bytes, value: Bytes): Command {
      this.(env := env[name := Some(value)])
    }

    function RemoveEnv(name: Bytes): Command {
      if cleared then this.(env := env - {name}) else this.(env := env[name := None])
    }
  }

  /** The observing process: its own environment and working directory at some moment. */
  datatype Ambient = Ambient(env: Environment, cwd: Option<Bytes>) {
    predicate Real() {
      cwd.Some? ==> Absolute(cwd.value)
    }
  }

  predicate Absolute(path: Bytes) {
    path != [] && path[0] == 47
  }

  function Join(base: Bytes, path: Bytes): Bytes {
    if Absolute(path) then path
    else if base != [] && base[|base| - 1] == 47 then base + path
    else base + [47] + path
  }

  function ResolveCwd(c: Command, amb: Ambient): Option<Bytes> {
    var cwd := if c.cwd.Some? then c.cwd else amb.cwd;
    if cwd.None? || Absolute(cwd.value) then cwd
    else if amb.cwd.None? then None
    else Some(Join(amb.cwd.value, cwd.value))
  }

  function Inherited(c: Command, amb: Ambient): Environment {
    map n | n in amb.env && n !in c.env :: amb.env[n]
  }

  function Explicit(c: Command): Environment {
    map n | n in c.env && c.env[n].Some? :: c.env[n].value
  }

  function EnvironmentOf(c: Command, inherit: bool, amb: Ambient): Environment {
    if inherit then Inherited(c, amb) + Explicit(c) else Explicit(c)
  }

  /** What `execve` receives. */
  datatype Execution = Execution(program: Bytes, argv: seq<Bytes>, cwd: Option<Bytes>, env: Environment)

  function Execute(c: Command, amb: Ambient): Execution {
    Execution(
      c.program,
      [if c.argv0.Some? then c.argv0.value else c.program] + c.args,
      ResolveCwd(c, amb),
      EnvironmentOf(c, !c.cleared, amb))
  }

  ghost predicate EnvironmentFits(env: Environment) {
    |env| <= MAX_ENVIRONMENT_ENTRIES && EnvBytes(env) <= MAX_ENVIRONMENT_BYTES && EntriesOk(env)
  }

  function Frozen(c: Command, cwd: Bytes, env: Environment): Command {
    c.(cwd := Some(cwd), argv0 := Some(c.program), env := map n | n in env :: Some(env[n]), cleared := true)
  }

  /** `freeze_environment`: None when the working directory, the program or the environment is unacceptable. */
  ghost function Freeze(c: Command, inherit: bool, amb: Ambient): Option<Command> {
    var cwd := ResolveCwd(c, amb);
    var env := EnvironmentOf(c, inherit, amb);
    if cwd.None? || |c.program| > MAX_COMMAND_BYTES || !EnvironmentFits(env) then None
    else Some(Frozen(c, cwd.value, env))
  }

  predicate IsFrozen(c: Command) {
    && c.cleared && c.argv0 == Some(c.program) && c.cwd.Some? && Absolute(c.cwd.value)
    && forall n :: n in c.env ==> c.env[n].Some?
  }

  lemma FrozenIsFixed(c: Command, cwd: Bytes, env: Environment)
    ensures Explicit(Frozen(c, cwd, env)) == env
    ensures Frozen(Frozen(c, cwd, env), cwd, env) == Frozen(c, cwd, env)
  {
  }

  lemma ResolvedIsAbsolute(c: Command, amb: Ambient)
    requires amb.Real() && ResolveCwd(c, amb).Some?
    ensures Absolute(ResolveCwd(c, amb).value)
  {
  }

  lemma FreezeYieldsFrozen(c: Command, inherit: bool, amb: Ambient)
    requires amb.Real() && Freeze(c, inherit, amb).Some?
    ensures IsFrozen(Freeze(c, inherit, amb).value)
    ensures Explicit(Freeze(c, inherit, amb).value) == EnvironmentOf(c, inherit, amb)
  {
    ResolvedIsAbsolute(c, amb);
    FrozenIsFixed(c, ResolveCwd(c, amb).value, EnvironmentOf(c, inherit, amb));
  }

  /** Freezing again, under any later ambient state, changes nothing. */
  lemma FreezeIdempotent(c: Command, inherit: bool, amb: Ambient, later: Ambient)
    requires amb.Real() && Freeze(c, inherit, amb).Some?
    ensures Freeze(Freeze(c, inherit, amb).value, false, later) == Freeze(c, inherit, amb)
  {
    var cwd, env := ResolveCwd(c, amb).value, EnvironmentOf(c, inherit, amb);
    var d := Frozen(c, cwd, env);
    ResolvedIsAbsolute(c, amb);
    FrozenIsFixed(c, cwd, env);
    assert ResolveCwd(d, later) == Some(cwd);
    assert EnvironmentOf(d, false, later) == env;
  }

  /** Freezing preserves what an inheriting command would have executed, and makes it immune to ambient change. */
  lemma FreezePreservesExecution(c: Command, amb: Ambient, later: Ambient)
    requires amb.Real() && Freeze(c, !c.cleared, amb).Some?
    ensures Execute(Freeze(c, !c.cleared, amb).value, later)
         == Execute(c, amb).(argv := [c.program] + c.args)
  {
    ResolvedIsAbsolute(c, amb);
    FrozenIsFixed(c, ResolveCwd(c, amb).value, EnvironmentOf(c, !c.cleared, amb));
  }

  // ----- overlays -----

  datatype EnvironmentChange = EnvironmentChange(name: Bytes, value: Option<Bytes>)

  function ChangeBytes(changes: seq<EnvironmentChange>): nat {
    if changes == [] then 0 else
      var last := changes[|changes| - 1];
      ChangeBytes(changes[..|changes| - 1]) + |last.name| + if last.value.Some? then |last.value.value| else 0
  }

  predicate ChangeOk(change: EnvironmentChange) {
    NameOk(change.name) && (change.value.Some? ==> 0 !in change.value.value)
  }

  predicate DistinctNames(changes: seq<EnvironmentChange>) {
    forall i, j :: 0 <= i < j < |changes| ==> changes[i].name != changes[j].name
  }

  predicate OverlayOk(changes: seq<EnvironmentChange>) {
    && |changes| <= MAX_OVERLAY_ENTRIES && ChangeBytes(changes) <= MAX_OVERLAY_BYTES
    && DistinctNames(changes) && forall i :: 0 <= i < |changes| ==> ChangeOk(changes[i])
  }

  lemma {:induction false} ChangeBytesPrefix(changes: seq<EnvironmentChange>, n: nat)
    requires n <= |changes|
    ensures ChangeBytes(changes[..n]) <= ChangeBytes(changes)
    decreases |changes|
  {
    if n < |changes| {
      ChangeBytesPrefix(changes[..|changes| - 1], n);
      assert changes[..|changes| - 1][..n] == changes[..n];
    } else {
      assert changes[..n] == changes;
    }
  }

  method CheckOverlay(changes: seq<EnvironmentChange>) returns (ok: bool)
    ensures ok == OverlayOk(changes)
  {
    if |changes| > MAX_OVERLAY_ENTRIES {
      return false;
    }
    var names: set<Bytes> := {};
    var bytes: nat := 0;
    for i := 0 to |changes|
      invariant names == (set j | 0 <= j < i :: changes[j].name)
      invariant bytes == ChangeBytes(changes[..i]) <= MAX_OVERLAY_BYTES
      invariant forall j :: 0 <= j < i ==> ChangeOk(changes[j])
      invariant forall j, k :: 0 <= j < k < i ==> changes[j].name != changes[k].name
    {
      var change := changes[i];
      assert changes[..i + 1][..i] == changes[..i];
      ChangeBytesPrefix(changes, i + 1);
      bytes := bytes + |change.name| + if change.value.Some? then |change.value.value| else 0;
      if || change.name == [] || 0 in change.name || 61 in change.name
         || (change.value.Some? && 0 in change.value.value)
         || change.name in names || bytes > MAX_OVERLAY_BYTES
      {
        return false;
      }
      names := names + {change.name};
    }
    assert changes[..|changes|] == changes;
    return true;
  }

  function Overlay(c: Command, changes: seq<EnvironmentChange>): Command {
    if changes == [] then c else
      var d := Overlay(c, changes[..|changes| - 1]);
      var last := changes[|changes| - 1];
      if last.value.Some? then d.SetEnv(last.name, last.value.value) else d.RemoveEnv(last.name)
  }

  method ApplyOverlay(c: Command, changes: seq<EnvironmentChange>) returns (r: Command)
    ensures r == Overlay(c, changes)
  {
    r := c;
    for i := 0 to |changes|
      invariant r == Overlay(c, changes[..i])
    {
      assert changes[..i + 1][..i] == changes[..i];
      if changes[i].value.Some? {
        r := r.SetEnv(changes[i].name, changes[i].value.value);
      } else {
        r := r.RemoveEnv(changes[i].name);
      }
    }
    assert changes[..|changes|] == changes;
  }

  /** On a frozen command each distinctly named change decides its own name and nothing else. */
  lemma {:induction false} OverlayMeaning(c: Command, changes: seq<EnvironmentChange>)
    requires c.cleared && DistinctNames(changes)
    ensures var d := Overlay(c, changes);
            && d == c.(env := d.env)
            && (forall i :: 0 <= i < |changes| ==>
                  if changes[i].value.Some? then changes[i].name in d.env && d.env[changes[i].name] == changes[i].value
                  else changes[i].name !in d.env)
            && forall n :: (forall i :: 0 <= i < |changes| ==> changes[i].name != n) ==>
                 (n in d.env <==> n in c.env) && (n in c.env ==> d.env[n] == c.env[n])
    decreases |changes|
  {
    if changes != [] {
      var front, last := changes[..|changes| - 1], changes[|changes| - 1];
      OverlayMeaning(c, front);
      var e, d := Overlay(c, front), Overlay(c, changes);
      forall i | 0 <= i < |changes|
        ensures if changes[i].value.Some? then changes[i].name in d.env && d.env[changes[i].name] == changes[i].value
                else changes[i].name !in d.env
      {
        if i < |front| { assert front[i] == changes[i]; }
      }
      forall n | forall i :: 0 <= i < |changes| ==> changes[i].name != n
        ensures (n in d.env <==> n in c.env) && (n in c.env ==> d.env[n] == c.env[n])
      {
        assert changes[|changes| - 1].name != n;
        assert forall i :: 0 <= i < |front| ==> front[i] == changes[i];
      }
    }
  }

  /** Distinctly named overlays compose independently of their order. */
  lemma OverlayOrderIrrelevant(c: Command, a: seq<EnvironmentChange>, b: seq<EnvironmentChange>)
    requires c.cleared && DistinctNames(a) && DistinctNames(b)
    requires forall change :: change in a <==> change in b
    ensures Overlay(c, a) == Overlay(c, b)
  {
    OverlayMeaning(c, a);
    OverlayMeaning(c, b);
    var d, e := Overlay(c, a), Overlay(c, b);
    forall n
      ensures (n in d.env <==> n in e.env) && (n in d.env ==> d.env[n] == e.env[n])
    {
      if i :| 0 <= i < |a| && a[i].name == n {
        assert a[i] in b;
        var j :| 0 <= j < |b| && b[j] == a[i];
      } else {
        assert forall j :: 0 <= j < |b| ==> b[j] in a;
      }
    }
    assert d.env == e.env;
  }

  // ----- bindings, intents, events and responses -----

  datatype Binding = Binding(session: Bytes, operation: nat, request: Bytes, root: Bytes, kind: Bytes) {
    predicate Valid() {
      && 1 <= operation <= MAX_OPERATIONS
      && TextOk(session) && TextOk(request) && TextOk(root) && TextOk(kind)
    }
  }

  predicate TextOk(text: Bytes) {
    0 < |text| <= 256 && forall i :: 0 <= i < |text| ==> 32 <= text[i] < 127
  }

  datatype CommandIntent = CommandIntent(
    binding: Binding, program: Bytes, argv: seq<Bytes>, cwd: Bytes, environment: EnvironmentDigest)

  datatype FinalIntent = FinalIntent(intent: CommandIntent, nonce: Bytes, responseDigest: Bytes)

  type u32 = n: int | 0 <= n < 0x1_0000_0000

  type i32 = n: int | -0x8000_0000 <= n < 0x8000_0000

  datatype ExitStatus = ExitStatus(code: Option<i32>, signal: Option<i32>) {
    predicate Success() { code == Some(0) }
  }

  datatype Event =
    | Route(intent: CommandIntent, requestDigest: Bytes)
    | Intent(binding: Binding, nonce: Bytes, responseDigest: Bytes, carrierBytes: u32, carrierDigest: Bytes)
    | Spawned(binding: Binding, pid: u32)
    | SpawnFailed(binding: Binding)
    | Completed(binding: Binding, status: ExitStatus)
    | Cancelled(binding: Binding, pid: u32, status: ExitStatus)
    | Unavailable(binding: Binding)
  {
    function Subject(): Binding {
      if Route? then intent.binding else binding
    }
  }

  datatype Response =
    | Routing(binding: Binding, requestDigest: Bytes, nonce: Bytes, environment: seq<EnvironmentChange>)
    | Acknowledged(binding: Binding, eventDigest: Bytes)
    | Denied(binding: Binding)

  function ArgvBytes(argv: seq<Bytes>): nat {
    if argv == [] then 0 else ArgvBytes(argv[..|argv| - 1]) + |argv[|argv| - 1]|
  }

  predicate ArgvOk(argv: seq<Bytes>) {
    && |argv| <= MAX_COMMAND_ARGUMENTS && ArgvBytes(argv) <= MAX_COMMAND_BYTES
    && forall i :: 0 <= i < |argv| ==> 0 !in argv[i]
  }

  /** `command_intent`: the bounded description of a frozen command, or refusal. */
  ghost function Describe(codec: Codec, c: Command, binding: Binding, amb: Ambient): Option<CommandIntent> {
    var argv, cwd := [c.program] + c.args, ResolveCwd(c, amb);
    if !binding.Valid() || !ArgvOk(argv) || cwd.None? || |cwd.value| > MAX_COMMAND_BYTES - ArgvBytes(argv) then None
    else if exists n :: n in c.env && c.env[n].None? then None
    else
      match DigestEnvironment(codec, Explicit(c))
      case None => None
      case Some(digest) =>
        var r := CommandIntent(binding, c.program, argv, cwd.value, digest);
        if codec.intent(r).None? then None else Some(r)
  }

  lemma DescribeExposes(codec: Codec, c: Command, binding: Binding, amb: Ambient)
    requires IsFrozen(c) && Describe(codec, c, binding, amb).Some?
    ensures var r := Describe(codec, c, binding, amb).value;
            && r.binding == binding && r.program == c.program && r.argv == [c.program] + c.args && Some(r.cwd) == c.cwd
            && DigestEnvironment(codec, Explicit(c)) == Some(r.environment)
  {
  }

  lemma FrozenEnvironmentIsExplicit(a: Command, b: Command)
    requires IsFrozen(a) && IsFrozen(b) && Explicit(a) == Explicit(b)
    ensures a.env == b.env
  {
    assert forall n :: n in a.env <==> n in Explicit(a);
    assert forall n :: n in b.env <==> n in Explicit(b);
    assert forall n :: n in a.env ==> a.env[n] == Some(Explicit(a)[n]) == b.env[n];
  }

  /** The intent fixes everything `execve` receives from a frozen command, under any ambient state. */
  lemma IntentDeterminesExecution(
      codec: Codec, a: Command, b: Command, binding: Binding, amb: Ambient, bmb: Ambient, later: Ambient,
      later': Ambient)
    requires IsFrozen(a) && IsFrozen(b)
    requires Describe(codec, a, binding, amb).Some?
    requires Describe(codec, a, binding, amb) == Describe(codec, b, binding, bmb)
    requires Separates(codec, Preimage(Listing(Explicit(a))), Preimage(Listing(Explicit(b))))
    ensures a == b && Execute(a, later) == Execute(b, later')
  {
    hide Describe, DigestEnvironment, Explicit, Preimage, Listing, Separates;
    DescribeExposes(codec, a, binding, amb);
    DescribeExposes(codec, b, binding, bmb);
    DigestInjective(codec, Explicit(a), Explicit(b));
    FrozenEnvironmentIsExplicit(a, b);
    assert a.args == ([a.program] + a.args)[1..] == b.args;
  }

  lemma DescribeIgnoresAmbient(codec: Codec, c: Command, binding: Binding, amb: Ambient, later: Ambient)
    requires IsFrozen(c)
    ensures Describe(codec, c, binding, amb) == Describe(codec, c, binding, later)
  {
  }

  predicate Bounded(entries: nat, bytes: nat) {
    entries <= MAX_ENVIRONMENT_ENTRIES && bytes <= MAX_ENVIRONMENT_BYTES
  }

  /** `environment` is `start` with the names of `more` already visited, `bytes` its size. */
  ghost predicate Gathering(start: Environment, more: Environment, left: set<Bytes>, environment: Environment,
                            bytes: nat)
  {
    left <= more.Keys && environment == start + (more - left) && bytes == EnvBytes(environment)
  }

  lemma GatherStep(start: Environment, more: Environment, left: set<Bytes>, k: Bytes, environment: Environment,
                   bytes: nat)
    requires start.Keys !! more.Keys && k in left && Gathering(start, more, left, environment, bytes)
    ensures k in more && Gathering(start, more, left - {k}, environment[k := more[k]], bytes + |k| + |more[k]|)
    ensures |environment[k := more[k]]| == |environment| + 1 <= |start + more|
    ensures bytes + |k| + |more[k]| <= EnvBytes(start + more)
  {
    hide EnvBytes;
    VisitStep(start, more, left, k, environment, environment[k := more[k]]);
  }

  /** The bounded `add` closure, applied to a run of names not seen before. */
  method AddEntries(start: Environment, spent: nat, more: Environment, ghost all: Environment)
    returns (fits: bool, environment: Environment, bytes: nat)
    requires start.Keys !! more.Keys && all == start + more
    requires Bounded(|start|, spent) && spent == EnvBytes(start)
    ensures fits == Bounded(|all|, EnvBytes(all))
    ensures fits ==> environment == all && bytes == EnvBytes(all)
  {
    hide EnvBytes;
    environment, bytes := start, spent;
    var left := more.Keys;
    VisitEnds(start, more);
    while left != {}
      invariant Gathering(start, more, left, environment, bytes)
      invariant Bounded(|environment|, bytes)
      decreases left
    {
      hide Gathering;
      var name :| name in left;
      GatherStep(start, more, left, name, environment, bytes);
      var value := more[name];
      if |environment| >= MAX_ENVIRONMENT_ENTRIES || |name| + |value| > MAX_ENVIRONMENT_BYTES - bytes {
        return false, environment, bytes;
      }
      bytes := bytes + |name| + |value|;
      environment := environment[name := value];
      left := left - {name};
    }
    fits := true;
  }

  lemma UnionGrows(i: Environment, x: Environment)
    requires i.Keys !! x.Keys
    ensures |i| <= |i + x| && EnvBytes(i) <= EnvBytes(i + x)
  {
    hide EnvBytes;
    EnvBytesMonotone(i, i + x);
  }

  lemma InheritedIsNotExplicit(c: Command, amb: Ambient)
    ensures Inherited(c, amb).Keys !! Explicit(c).Keys
  {
  }

  lemma NothingSpent()
    ensures var none: Environment := map[]; EnvBytes(none) == 0 && |none| == 0
  {
  }

  lemma NothingFirst(i: Environment)
    ensures var none: Environment := map[]; none.Keys !! i.Keys && none + i == i
  {
  }

  method GatherEnvironment(c: Command, inherit: bool, amb: Ambient) returns (fits: bool, env: Environment)
    ensures fits == Bounded(|EnvironmentOf(c, inherit, amb)|, EnvBytes(EnvironmentOf(c, inherit, amb)))
    ensures fits ==> env == EnvironmentOf(c, inherit, amb)
  {
    hide EnvBytes, Inherited, Explicit;
    InheritedIsNotExplicit(c, amb);
    UnionGrows(Inherited(c, amb), Explicit(c));
    NothingFirst(Inherited(c, amb));
    NothingFirst(Explicit(c));
    NothingSpent();
    ghost var goal := EnvironmentOf(c, inherit, amb);
    var bytes := 0;
    env := map[];
    if inherit {
      var inherited := Inherited(c, amb);
      fits, env, bytes := AddEntries(map[], 0, inherited, inherited);
      if !fits {
        return;
      }
    }
    fits, env, bytes := AddEntries(env, bytes, Explicit(c), goal);
  }

  method ResolveDirectory(c: Command, amb: Ambient) returns (cwd: Option<Bytes>)
    ensures cwd == ResolveCwd(c, amb)
  {
    cwd := if c.cwd.Some? then c.cwd else amb.cwd;
    if cwd.Some? && !Absolute(cwd.value) {
      if amb.cwd.None? {
        return None;
      }
      cwd := Some(Join(amb.cwd.value, cwd.value));
    }
  }

  method FreezeEnvironment(codec: Codec, c: Command, inherit: bool, amb: Ambient) returns (r: Option<Command>)
    ensures r == Freeze(c, inherit, amb)
  {
    var cwd := ResolveDirectory(c, amb);
    if cwd.None? || |c.program| > MAX_COMMAND_BYTES {
      return None;
    }
    var fits, environment := GatherEnvironment(c, inherit, amb);
    if !fits {
      return None;
    }
    var digest := ComputeDigest(codec, environment);
    return if digest.None? then None else Some(Frozen(c, cwd.value, environment));
  }

  /** The argument loop: each without a nul byte, and all within the bounds. */
  method CollectArgv(given: seq<Bytes>) returns (fits: bool, bytes: nat)
    ensures fits <==> ArgvOk(given)
    ensures fits ==> bytes == ArgvBytes(given)
  {
    hide ArgvBytes;
    fits, bytes := true, 0;
    NoArguments();
    for i := 0 to |given|
      invariant ArgvOk(given[..i]) && bytes == ArgvBytes(given[..i])
    {
      OneMoreArgument(given, i);
      if 0 in given[i] || i >= MAX_COMMAND_ARGUMENTS || |given[i]| > MAX_COMMAND_BYTES - bytes {
        return false, bytes;
      }
      bytes := bytes + |given[i]|;
    }
    assert given[..|given|] == given;
  }

  lemma NoArguments()
    ensures ArgvBytes([]) == 0
  {
  }

  lemma OneMoreArgument(given: seq<Bytes>, i: nat)
    requires i < |given|
    ensures ArgvBytes(given[..i + 1]) == ArgvBytes(given[..i]) + |given[i]| <= ArgvBytes(given)
    ensures given[..i + 1][..i] == given[..i]
  {
    assert given[..i + 1][..i] == given[..i];
    ArgvPrefix(given, i + 1);
  }

  method ComputeIntent(codec: Codec, c: Command, binding: Binding, amb: Ambient) returns (r: Option<CommandIntent>)
    ensures r == Describe(codec, c, binding, amb)
  {
    hide ArgvOk, ArgvBytes, ResolveCwd, DigestEnvironment, Explicit;
    if !binding.Valid() {
      return None;
    }
    var argv := [c.program] + c.args;
    var fits, bytes := CollectArgv(argv);
    if !fits {
      return None;
    }
    var cwd := ResolveCwd(c, amb);
    if cwd.None? || |cwd.value| > MAX_COMMAND_BYTES - bytes {
      return None;
    }
    if exists n :: n in c.env && c.env[n].None? {
      return None;
    }
    var digest := ComputeDigest(codec, Explicit(c));
    if digest.None? {
      return None;
    }
    var intent := CommandIntent(binding, argv[0], argv, cwd.value, digest.value);
    if codec.intent(intent).None? {
      return None;
    }
    return Some(intent);
  }

  lemma {:induction false} ArgvPrefix(argv: seq<Bytes>, n: nat)
    requires n <= |argv|
    ensures ArgvBytes(argv[..n]) <= ArgvBytes(argv)
    decreases |argv|
  {
    if n < |argv| {
      ArgvPrefix(argv[..|argv| - 1], n);
      assert argv[..|argv| - 1][..n] == argv[..n];
    } else {
      assert argv[..n] == argv;
    }
  }
}
