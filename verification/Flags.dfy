/**
 Selecting the compiler sysroot through Cargo's encoded flags: one flag, appended only when
 no selection is there, contradictions refused, everything else left as it was.
 */
module Flags {
  import opened Bytes
  import opened LaunchIntent

  const MAX_TEXT_BYTES := 4096
  const MAX_ARGUMENTS := 512

  /** The separator of encoded flags, the unit separator control character. */
  const SEP: byte := 31

  const FLAG: Bytes := Ascii("--sysroot")
  const FLAG_EQUALS: Bytes := Ascii("--sysroot=")

  // ----- splitting and joining -----

  predicate Plain(s: Bytes) {
    forall i :: 0 <= i < |s| ==> s[i] != SEP
  }

  function SepAt(s: Bytes): (n: nat)
    ensures n <= |s| && Plain(s[..n]) && (n < |s| ==> s[n] == SEP)
  {
    if s == [] || s[0] == SEP then 0
    else
      var n := SepAt(s[1..]);
      assert forall i :: 0 < i < n + 1 ==> s[i] == s[1..][i - 1] == s[1..][..n][i - 1];
      n + 1
  }

  /** `split` at the separator: always at least one piece. */
  function Split(s: Bytes): (r: seq<Bytes>)
    ensures r != []
    decreases |s|
  {
    var n := SepAt(s);
    if n == |s| then [s] else [s[..n]] + Split(s[n + 1..])
  }

  function JoinFlags(flags: seq<Bytes>): Bytes {
    if flags == [] then [] else if |flags| == 1 then flags[0] else flags[0] + [SEP] + JoinFlags(flags[1..])
  }

  lemma {:induction false} SepAfter(a: Bytes, rest: Bytes)
    requires Plain(a)
    ensures SepAt(a) == |a| && SepAt(a + [SEP] + rest) == |a|
    decreases |a|
  {
    if a != [] {
      SepAfter(a[1..], rest);
      assert (a + [SEP] + rest)[1..] == a[1..] + [SEP] + rest;
    }
  }

  lemma {:induction false} SplitJoin(flags: seq<Bytes>)
    requires flags != [] && forall i :: 0 <= i < |flags| ==> Plain(flags[i])
    ensures Split(JoinFlags(flags)) == flags
    decreases |flags|
  {
    if |flags| == 1 {
      SepAfter(flags[0], []);
    } else {
      hide SepAt;
      var rest := JoinFlags(flags[1..]);
      SepAfter(flags[0], rest);
      var s := flags[0] + [SEP] + rest;
      assert s[..|flags[0]|] == flags[0] && s[|flags[0]| + 1..] == rest;
      SplitJoin(flags[1..]);
    }
  }

  lemma {:induction false} JoinSplit(s: Bytes)
    ensures JoinFlags(Split(s)) == s && forall i :: 0 <= i < |Split(s)| ==> Plain(Split(s)[i])
    decreases |s|
  {
    hide SepAt;
    var n := SepAt(s);
    if n == |s| {
      assert s[..n] == s;
    } else {
      JoinSplit(s[n + 1..]);
      assert ([s[..n]] + Split(s[n + 1..]))[1..] == Split(s[n + 1..]);
      assert s == s[..n] + [SEP] + s[n + 1..];
    }
  }

  // ----- sysroot selections -----

  predicate StartsWith(s: Bytes, prefix: Bytes) {
    |prefix| <= |s| && s[..|prefix|] == prefix
  }

  /** The sysroot that the flag at `i` selects, if it selects one. */
  function Selects(flags: seq<Bytes>, i: nat): Option<Bytes>
    requires i < |flags|
  {
    if flags[i] == FLAG then (if i + 1 < |flags| then Some(flags[i + 1]) else None)
    else if StartsWith(flags[i], FLAG_EQUALS) then Some(flags[i][|FLAG_EQUALS|..])
    else None
  }

  /** Both spellings of a selection, and no other. */
  lemma SelectsMeaning(flags: seq<Bytes>, i: nat, sysroot: Bytes)
    requires i < |flags|
    ensures Selects(flags, i) == Some(sysroot) <==>
              || (flags[i] == Ascii("--sysroot") && i + 1 < |flags| && flags[i + 1] == sysroot)
              || flags[i] == Ascii("--sysroot=") + sysroot
  {
    var flag := flags[i];
    assert |FLAG| == 9 && |FLAG_EQUALS| == 10;
    assert flag == FLAG_EQUALS + sysroot <==> StartsWith(flag, FLAG_EQUALS) && flag[|FLAG_EQUALS|..] == sysroot by {
      if StartsWith(flag, FLAG_EQUALS) {
        assert flag == flag[..|FLAG_EQUALS|] + flag[|FLAG_EQUALS|..];
      }
      assert (FLAG_EQUALS + sysroot)[..|FLAG_EQUALS|] == FLAG_EQUALS;
      assert (FLAG_EQUALS + sysroot)[|FLAG_EQUALS|..] == sysroot;
    }
  }

  function Count(flags: seq<Bytes>, n: nat): nat
    requires n <= |flags|
  {
    if n == 0 then 0 else Count(flags, n - 1) + if Selects(flags, n - 1).Some? then 1 else 0
  }

  predicate Incomplete(flags: seq<Bytes>) {
    flags != [] && flags[|flags| - 1] == FLAG
  }

  /** No dangling selector, no other sysroot, at most one selection. */
  predicate Consistent(flags: seq<Bytes>, sysroot: Bytes) {
    && !Incomplete(flags)
    && (forall i :: 0 <= i < |flags| && Selects(flags, i).Some? ==> Selects(flags, i).value == sysroot)
    && Count(flags, |flags|) <= 1
  }

  lemma {:induction false} CountGrows(flags: seq<Bytes>, m: nat, n: nat)
    requires m <= n <= |flags|
    ensures Count(flags, m) <= Count(flags, n)
    decreases n
  {
    if m < n { CountGrows(flags, m, n - 1); }
  }

  method Scan(flags: seq<Bytes>, sysroot: Bytes) returns (ok: bool, selected: bool)
    ensures ok <==> Consistent(flags, sysroot)
    ensures ok ==> (selected <==> Count(flags, |flags|) == 1)
  {
    selected := false;
    for i := 0 to |flags|
      invariant forall j :: 0 <= j < i ==> !(flags[j] == FLAG && j + 1 == |flags|)
      invariant forall j :: 0 <= j < i && Selects(flags, j).Some? ==> Selects(flags, j).value == sysroot
      invariant Count(flags, i) == if selected then 1 else 0
    {
      var value := Selects(flags, i);
      CountGrows(flags, i + 1, |flags|);
      if flags[i] == FLAG && value.None? {
        return false, selected;
      }
      if value.Some? {
        if selected || value.value != sysroot {
          return false, selected;
        }
        selected := true;
      }
    }
    ok := true;
  }

  // ----- one variable -----

  function Supplied(sysroot: Bytes): Bytes {
    FLAG_EQUALS + sysroot
  }

  /** Splitting at white space: no piece has a byte the text has not. */
  ghost predicate WordsOk(words: Bytes -> seq<Bytes>) {
    forall t :: Plain(t) ==> forall i :: 0 <= i < |words(t)| ==> Plain(words(t)[i])
  }

  datatype Words = Words(split: Bytes -> seq<Bytes>, utf8: Bytes -> bool)

  /** The flags a variable holds, encoded or plain. */
  function Decode(w: Words, encoded: bool, text: Bytes): seq<Bytes> {
    if text == [] then [] else if encoded then Split(text) else w.split(text)
  }

  function Chosen(flags: seq<Bytes>, sysroot: Bytes): seq<Bytes> {
    if Count(flags, |flags|) == 1 then flags else flags + [Supplied(sysroot)]
  }

  /** The new encoded value, or None for a refusal. */
  function Compose(w: Words, encoded: Option<Bytes>, plain: Option<Bytes>, sysroot: Bytes): Option<Bytes> {
    var text := if encoded.Some? then encoded.value else if plain.Some? then plain.value else [];
    if ((encoded.Some? || plain.Some?) && !w.utf8(text)) || |text| > MAX_TEXT_BYTES
       || (encoded.None? && !Plain(text)) then
      None
    else
      var flags := Decode(w, encoded.Some?, text);
      if |flags| > MAX_ARGUMENTS || !Consistent(flags, sysroot) then None
      else if Count(flags, |flags|) == 0 && |text| + |Supplied(sysroot)| + 1 > MAX_TEXT_BYTES then None
      else
        var final := Chosen(flags, sysroot);
        if |final| > MAX_ARGUMENTS || |JoinFlags(final)| > MAX_TEXT_BYTES then None else Some(JoinFlags(final))
  }

  method ComposeFlags(w: Words, encoded: Option<Bytes>, plain: Option<Bytes>, sysroot: Bytes) returns (r: Option<Bytes>)
    ensures r == Compose(w, encoded, plain, sysroot)
  {
    var value := if encoded.Some? then encoded else plain;
    if value.Some? && !w.utf8(value.value) {
      return None;
    }
    var text := if value.Some? then value.value else [];
    if |text| > MAX_TEXT_BYTES || (encoded.None? && !Plain(text)) {
      return None;
    }
    var flags := Decode(w, encoded.Some?, text);
    if |flags| > MAX_ARGUMENTS {
      return None;
    }
    var ok, selected := Scan(flags, sysroot);
    if !ok {
      return None;
    }
    if !selected {
      if |text| + |Supplied(sysroot)| + 1 > MAX_TEXT_BYTES {
        return None;
      }
      flags := flags + [Supplied(sysroot)];
    }
    if |flags| > MAX_ARGUMENTS || |JoinFlags(flags)| > MAX_TEXT_BYTES {
      return None;
    }
    return Some(JoinFlags(flags));
  }

  lemma SuppliedSelects(flags: seq<Bytes>, sysroot: Bytes)
    requires !Incomplete(flags)
    ensures var more := flags + [Supplied(sysroot)];
            && !Incomplete(more) && Selects(more, |flags|) == Some(sysroot)
            && (forall i :: 0 <= i < |flags| ==> Selects(more, i) == Selects(flags, i))
  {
    var more := flags + [Supplied(sysroot)];
    assert |FLAG| == 9 && |FLAG_EQUALS| == 10;
    assert Supplied(sysroot)[|FLAG_EQUALS|..] == sysroot && Supplied(sysroot)[..|FLAG_EQUALS|] == FLAG_EQUALS;
    assert |Supplied(sysroot)| >= 10;
    assert more[|flags|] == Supplied(sysroot);
    forall i | 0 <= i < |flags| ensures Selects(more, i) == Selects(flags, i) {
      assert more[i] == flags[i];
      if i + 1 < |flags| { assert more[i + 1] == flags[i + 1]; }
    }
  }

  lemma {:induction false} CountSame(a: seq<Bytes>, b: seq<Bytes>, n: nat)
    requires n <= |a| && n <= |b| && forall i :: 0 <= i < n ==> Selects(a, i) == Selects(b, i)
    ensures Count(a, n) == Count(b, n)
    decreases n
  {
    if n > 0 { CountSame(a, b, n - 1); }
  }

  /** After composing there is exactly one selection, of the given sysroot, and nothing dangling. */
  lemma ChosenIsSettled(flags: seq<Bytes>, sysroot: Bytes)
    requires Consistent(flags, sysroot)
    ensures var final := Chosen(flags, sysroot);
            Consistent(final, sysroot) && Count(final, |final|) == 1 && flags <= final && final != []
  {
    var final := Chosen(flags, sysroot);
    if Count(flags, |flags|) != 1 {
      SuppliedSelects(flags, sysroot);
      CountSame(flags, final, |flags|);
      assert Count(final, |final|) == Count(final, |flags|) + 1;
    }
  }

  lemma PriorFlagsPlain(w: Words, encoded: bool, text: Bytes)
    requires WordsOk(w.split) && (encoded || Plain(text))
    ensures forall i :: 0 <= i < |Decode(w, encoded, text)| ==> Plain(Decode(w, encoded, text)[i])
  {
    if encoded { JoinSplit(text); }
  }

  lemma SuppliedPlain(sysroot: Bytes)
    requires Plain(sysroot)
    ensures Plain(Supplied(sysroot))
  {
    assert forall i :: 0 <= i < |FLAG_EQUALS| ==> FLAG_EQUALS[i] != SEP;
  }

  /**
   A success keeps every flag that was there, in order, and leaves exactly one sysroot selection, appended only when
   there was none; the value stays within both caps and decodes back to exactly that list.
   */
  lemma ComposeMeaning(w: Words, encoded: Option<Bytes>, plain: Option<Bytes>, sysroot: Bytes)
    requires WordsOk(w.split) && Plain(sysroot)
    requires Compose(w, encoded, plain, sysroot).Some?
    ensures var value := Compose(w, encoded, plain, sysroot).value;
            var prior :=
              Decode(w, encoded.Some?,
                     if encoded.Some? then encoded.value else if plain.Some? then plain.value else []);
            && Split(value) == Chosen(prior, sysroot) && prior <= Split(value)
            && Consistent(Split(value), sysroot) && Count(Split(value), |Split(value)|) == 1
            && |value| <= MAX_TEXT_BYTES && |Split(value)| <= MAX_ARGUMENTS
            && (Count(prior, |prior|) == 1 ==> Split(value) == prior)
            && (Count(prior, |prior|) == 0 ==> Split(value) == prior + [Supplied(sysroot)])
  {
    hide Split, Consistent, Count, Plain, Supplied;
    var text := if encoded.Some? then encoded.value else if plain.Some? then plain.value else [];
    var prior := Decode(w, encoded.Some?, text);
    ChosenIsSettled(prior, sysroot);
    PriorFlagsPlain(w, encoded.Some?, text);
    SuppliedPlain(sysroot);
    SplitJoin(Chosen(prior, sysroot));
  }

  /** The value in use: the encoded variable if it is set at all, else the plain one. */
  function InUse(encoded: Option<Bytes>, plain: Option<Bytes>): Option<Bytes> {
    if encoded.Some? then encoded else plain
  }

  lemma {:induction false} JoinedLength(flags: seq<Bytes>, flag: Bytes)
    ensures |JoinFlags(flags + [flag])| == |flag| + if flags == [] then 0 else |JoinFlags(flags)| + 1
    decreases |flags|
  {
    assert flags != [] ==> (flags + [flag])[1..] == flags[1..] + [flag];
    if |flags| > 1 { JoinedLength(flags[1..], flag); }
  }

  /**
   Which flags are refused: text that is not UTF-8 or too long, a plain value with a separator, too many flags,
   dangling, contradictory or repeated selections, and no room for the one to be appended. An encoded value that fits
   still fits afterwards; a plain one is measured again when it is joined.
   */
  lemma ComposeIff(w: Words, encoded: Option<Bytes>, plain: Option<Bytes>, sysroot: Bytes)
    ensures var used := InUse(encoded, plain);
            var text := if used.Some? then used.value else [];
            var prior := Decode(w, encoded.Some?, text);
            Compose(w, encoded, plain, sysroot).Some? <==>
              && (used.Some? ==> w.utf8(text)) && |text| <= 4096 && (encoded.None? ==> Plain(text))
              && |prior| <= 512 && Consistent(prior, sysroot)
              && (Count(prior, |prior|) == 1 && encoded.None? ==> |JoinFlags(prior)| <= 4096)
              && (Count(prior, |prior|) == 0 ==> |prior| < 512 && |text| + |sysroot| + 11 <= 4096)
              && (Count(prior, |prior|) == 0 && encoded.None? && prior != [] ==>
                    |JoinFlags(prior)| + |sysroot| + 11 <= 4096)
  {
    hide Split, Consistent, Count, Plain, StartsWith;
    assert |FLAG_EQUALS| == 10;
    var used := InUse(encoded, plain);
    var text := if used.Some? then used.value else [];
    var prior := Decode(w, encoded.Some?, text);
    CountGrows(prior, 0, |prior|);
    JoinedLength(prior, Supplied(sysroot));
    JoinSplit(text);
    if Consistent(prior, sysroot) { AtMostOne(prior, sysroot); }
    if prior == [] { assert Count(prior, |prior|) == 0 by { NoneCounted(prior); } }
  }

  lemma AtMostOne(flags: seq<Bytes>, sysroot: Bytes)
    requires Consistent(flags, sysroot)
    ensures Count(flags, |flags|) <= 1
  {
  }

  lemma NoneCounted(flags: seq<Bytes>)
    ensures Count(flags, 0) == 0
  {
  }

  /** Composing again changes nothing, whatever the plain variable says by then. */
  lemma ComposeAgain(w: Words, encoded: Option<Bytes>, plain: Option<Bytes>, sysroot: Bytes, later: Option<Bytes>)
    requires WordsOk(w.split) && Plain(sysroot)
    requires Compose(w, encoded, plain, sysroot).Some? && w.utf8(Compose(w, encoded, plain, sysroot).value)
    ensures Compose(w, Some(Compose(w, encoded, plain, sysroot).value), later, sysroot)
              == Compose(w, encoded, plain, sysroot)
  {
    ComposeMeaning(w, encoded, plain, sysroot);
    var value := Compose(w, encoded, plain, sysroot).value;
    JoinSplit(value);
    EmptySelectsNothing();
    hide Split, Consistent, Count;
    assert value != [];
  }

  lemma EmptySelectsNothing()
    ensures Split([]) == [[]] && Count([[]], 1) == 0
  {
    assert Count([[]], 0) == 0;
    assert |FLAG| == 9 && |FLAG_EQUALS| == 10;
  }

  // ----- both variables of a command -----

  const ENCODED_RUSTFLAGS: Bytes := Ascii("CARGO_ENCODED_RUSTFLAGS")
  const RUSTFLAGS: Bytes := Ascii("RUSTFLAGS")
  const ENCODED_RUSTDOCFLAGS: Bytes := Ascii("CARGO_ENCODED_RUSTDOCFLAGS")
  const RUSTDOCFLAGS: Bytes := Ascii("RUSTDOCFLAGS")

  /** What a variable is for this command: its own setting, else the ambient one. */
  function CommandValue(c: Command, name: Bytes, amb: Ambient): Option<Bytes> {
    if name in c.env then c.env[name] else if name in amb.env then Some(amb.env[name]) else None
  }

  function ApplyPair(w: Words, c: Command, encoded: Bytes, plain: Bytes, sysroot: Bytes,
                     amb: Ambient): Option<Command>
  {
    match Compose(w, CommandValue(c, encoded, amb), CommandValue(c, plain, amb), sysroot)
    case None => None
    case Some(value) => Some(c.SetEnv(encoded, value))
  }

  function Apply(w: Words, c: Command, sysroot: Bytes, amb: Ambient): Option<Command> {
    if !w.utf8(sysroot) then None
    else
      match ApplyPair(w, c, ENCODED_RUSTFLAGS, RUSTFLAGS, sysroot, amb)
      case None => None
      case Some(d) => ApplyPair(w, d, ENCODED_RUSTDOCFLAGS, RUSTDOCFLAGS, sysroot, amb)
  }

  method ApplySysroot(w: Words, c: Command, sysroot: Bytes, amb: Ambient) returns (r: Option<Command>)
    ensures r == Apply(w, c, sysroot, amb)
  {
    if !w.utf8(sysroot) {
      return None;
    }
    var pairs := [(ENCODED_RUSTFLAGS, RUSTFLAGS), (ENCODED_RUSTDOCFLAGS, RUSTDOCFLAGS)];
    var command := c;
    for i := 0 to 2
      invariant i == 0 ==> command == c
      invariant i == 1 ==> Some(command) == ApplyPair(w, c, ENCODED_RUSTFLAGS, RUSTFLAGS, sysroot, amb)
      invariant i == 2 ==> Some(command) == Apply(w, c, sysroot, amb)
    {
      var (encoded, plain) := pairs[i];
      var value := ComposeFlags(w, CommandValue(command, encoded, amb), CommandValue(command, plain, amb), sysroot);
      if value.None? {
        return None;
      }
      command := command.SetEnv(encoded, value.value);
    }
    return Some(command);
  }

  /**
   The selection is refused if and only if it is not UTF-8 or one of the two pairs is; otherwise the command gets, name
   by name, each encoded variable composed from itself and its own plain one, and is else what it was.
   */
  lemma ApplyExact(w: Words, c: Command, sysroot: Bytes, amb: Ambient)
    ensures var flags := Compose(w, CommandValue(c, Ascii("CARGO_ENCODED_RUSTFLAGS"), amb),
                                 CommandValue(c, Ascii("RUSTFLAGS"), amb), sysroot);
            var docFlags := Compose(w, CommandValue(c, Ascii("CARGO_ENCODED_RUSTDOCFLAGS"), amb),
                                    CommandValue(c, Ascii("RUSTDOCFLAGS"), amb), sysroot);
            var r := Apply(w, c, sysroot, amb);
            && (r.Some? <==> w.utf8(sysroot) && flags.Some? && docFlags.Some?)
            && (r.Some? ==>
                  && r.value == c.(env := r.value.env)
                  && forall name :: CommandValue(r.value, name, amb) ==
                       if name == Ascii("CARGO_ENCODED_RUSTFLAGS") then flags
                       else if name == Ascii("CARGO_ENCODED_RUSTDOCFLAGS") then docFlags
                       else CommandValue(c, name, amb))
  {
    hide Compose, Ascii;
    NamesDiffer();
    var first := ApplyPair(w, c, ENCODED_RUSTFLAGS, RUSTFLAGS, sysroot, amb);
    if first.Some? {
      assert CommandValue(first.value, ENCODED_RUSTDOCFLAGS, amb) == CommandValue(c, ENCODED_RUSTDOCFLAGS, amb);
      assert CommandValue(first.value, RUSTDOCFLAGS, amb) == CommandValue(c, RUSTDOCFLAGS, amb);
    }
  }

  lemma NamesDiffer()
    ensures ENCODED_RUSTFLAGS != ENCODED_RUSTDOCFLAGS && ENCODED_RUSTFLAGS != RUSTDOCFLAGS
  {
    assert |ENCODED_RUSTFLAGS| == 23 && |ENCODED_RUSTDOCFLAGS| == 26 && |RUSTDOCFLAGS| == 12;
  }

  predicate TextVariable(w: Words, c: Command, name: Bytes) {
    name in c.env && c.env[name].Some? ==> w.utf8(c.env[name].value)
  }

  /** Applying the selection to a command that already carries it changes nothing, in whatever surroundings. */
  lemma ApplyIsIdempotent(w: Words, c: Command, sysroot: Bytes, amb: Ambient, later: Ambient)
    requires WordsOk(w.split) && Plain(sysroot) && Apply(w, c, sysroot, amb).Some?
    requires TextVariable(w, Apply(w, c, sysroot, amb).value, ENCODED_RUSTFLAGS)
    requires TextVariable(w, Apply(w, c, sysroot, amb).value, ENCODED_RUSTDOCFLAGS)
    ensures Apply(w, Apply(w, c, sysroot, amb).value, sysroot, later) == Apply(w, c, sysroot, amb)
  {
    hide Compose, WordsOk;
    NamesDiffer();
    var d := ApplyPair(w, c, ENCODED_RUSTFLAGS, RUSTFLAGS, sysroot, amb).value;
    var e := Apply(w, c, sysroot, amb).value;
    assert ENCODED_RUSTFLAGS in e.env && e.env[ENCODED_RUSTFLAGS] == d.env[ENCODED_RUSTFLAGS];
    assert ENCODED_RUSTDOCFLAGS in e.env;
    assert w.utf8(e.env[ENCODED_RUSTFLAGS].value) && w.utf8(e.env[ENCODED_RUSTDOCFLAGS].value);
    ComposeAgain(w, CommandValue(c, ENCODED_RUSTFLAGS, amb), CommandValue(c, RUSTFLAGS, amb), sysroot,
                 CommandValue(e, RUSTFLAGS, later));
    assert e.SetEnv(ENCODED_RUSTFLAGS, e.env[ENCODED_RUSTFLAGS].value).env == e.env;
    ComposeAgain(w, CommandValue(d, ENCODED_RUSTDOCFLAGS, amb), CommandValue(d, RUSTDOCFLAGS, amb), sysroot,
                 CommandValue(e, RUSTDOCFLAGS, later));
    assert e.SetEnv(ENCODED_RUSTDOCFLAGS, e.env[ENCODED_RUSTDOCFLAGS].value).env == e.env;
  }

  // ----- the check of a routed command -----

  /** The value holds one selection, of this sysroot, and is within the bounds. */
  predicate Carries(w: Words, value: Bytes, sysroot: Bytes) {
    && w.utf8(value) && |value| <= MAX_TEXT_BYTES && |Decode(w, true, value)| <= MAX_ARGUMENTS
    && Consistent(Decode(w, true, value), sysroot)
    && Count(Decode(w, true, value), |Decode(w, true, value)|) == 1
  }

  /** Exactly such values are left as they are. */
  lemma FixedIffCarries(w: Words, value: Bytes, plain: Option<Bytes>, sysroot: Bytes)
    ensures Compose(w, Some(value), plain, sysroot) == Some(value) <==> Carries(w, value, sysroot)
  {
    hide Split, Consistent, Plain;
    var prior := Decode(w, true, value);
    JoinSplit(value);
    JoinedLength(prior, Supplied(sysroot));
    NoneCounted(prior);
    if Consistent(prior, sysroot) { AtMostOne(prior, sysroot); }
  }

  const RUSTC: Bytes := Ascii("RUSTC")
  const RUSTDOC: Bytes := Ascii("RUSTDOC")

  /**
   A routed command still makes the explicit selection if and only if it names the two tools and both its encoded
   variables are set and carry the sysroot: applying the selection to a detached command with just those changes none.
   */
  method CheckFinalSelection(w: Words, c: Command, sysroot: Bytes, rustc: Bytes, rustdoc: Bytes, amb: Ambient)
    returns (ok: bool)
    ensures ok <==>
              && CommandValue(c, Ascii("RUSTC"), amb) == Some(rustc)
              && CommandValue(c, Ascii("RUSTDOC"), amb) == Some(rustdoc) && w.utf8(sysroot)
              && var flags := CommandValue(c, Ascii("CARGO_ENCODED_RUSTFLAGS"), amb);
                 var docFlags := CommandValue(c, Ascii("CARGO_ENCODED_RUSTDOCFLAGS"), amb);
                 && flags.Some? && Carries(w, flags.value, sysroot)
                 && docFlags.Some? && Carries(w, docFlags.value, sysroot)
  {
    hide Apply, Carries, Compose, Ascii;
    if CommandValue(c, RUSTC, amb) != Some(rustc) || CommandValue(c, RUSTDOC, amb) != Some(rustdoc) {
      return false;
    }
    var flags, docFlags := CommandValue(c, ENCODED_RUSTFLAGS, amb), CommandValue(c, ENCODED_RUSTDOCFLAGS, amb);
    if flags.None? || docFlags.None? {
      return false;
    }
    var bare := Command(c.program, [], None, map[], false, None);
    var check := bare.SetEnv(ENCODED_RUSTFLAGS, flags.value).SetEnv(ENCODED_RUSTDOCFLAGS, docFlags.value);
    var applied := ApplySysroot(w, check, sysroot, amb);
    NamesDiffer();
    ApplyExact(w, check, sysroot, amb);
    FixedIffCarries(w, flags.value, CommandValue(check, RUSTFLAGS, amb), sysroot);
    FixedIffCarries(w, docFlags.value, CommandValue(check, RUSTDOCFLAGS, amb), sysroot);
    if applied.None? {
      return false;
    }
    ok := CommandValue(applied.value, ENCODED_RUSTFLAGS, amb) == flags
       && CommandValue(applied.value, ENCODED_RUSTDOCFLAGS, amb) == docFlags;
  }
}
