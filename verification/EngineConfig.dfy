/** Live configuration: which commands the engine takes while running, and what they change. */
module EngineConfig {
  import opened Basics
  import opened Messages

  datatype Method = UseMultiplicative | UsePower | UseShin

  datatype Settings = Settings(staleMs: u64, kellyFraction: real, maxExposure: real, devigMethod: Method, changes: nat)

  /** What the field scanners find in a message; a value may be readable as a string, as a number, or not at all. */
  datatype Command = Command(cmd: Option<string>, key: Option<string>, text: Option<string>, number: Option<real>)

  datatype Reply = Ack(key: string) | Nack(key: string, why: string)

  function ParseDevig(s: string): Option<Method> {
    if s == "multiplicative" then Some(UseMultiplicative)
    else if s == "power" then Some(UsePower)
    else if s == "shin" then Some(UseShin)
    else None
  }

  const MAX_STALE_MS: real := 3_600_000.0

  predicate IsFraction(v: real) { 0.0 < v <= 1.0 }

  /** The only ways a setting may change: the key names it, the value is of its kind and within its range. */
  predicate Acceptable(c: Command) {
    c.cmd == Some("set") && c.key.Some? &&
    if c.key.value == "devig" then c.text.Some? && ParseDevig(c.text.value).Some?
    else if c.key.value == "stale-ms" then c.number.Some? && 1.0 <= c.number.value <= MAX_STALE_MS
    else
      (c.key.value == "kelly-fraction" || c.key.value == "max-exposure") && c.number.Some? &&
      IsFraction(c.number.value)
  }

  /** What an acceptable command makes of the settings: one of them, and the count of changes. */
  function Changed(s: Settings, c: Command): Settings
    requires Acceptable(c)
  {
    var s' := s.(changes := s.changes + 1);
    if c.key.value == "devig" then s'.(devigMethod := ParseDevig(c.text.value).value)
    else if c.key.value == "stale-ms" then s'.(staleMs := c.number.value.Floor)
    else if c.key.value == "kelly-fraction" then s'.(kellyFraction := c.number.value)
    else s'.(maxExposure := c.number.value)
  }

  function AfterCommand(s: Settings, c: Command, locked: bool): Settings {
    if !locked && Acceptable(c) then Changed(s, c) else s
  }

  function AfterCommands(s: Settings, cs: seq<Command>, locked: bool): Settings {
    if cs == [] then s else AfterCommand(AfterCommands(s, cs[..|cs| - 1], locked), cs[|cs| - 1], locked)
  }

  /** Every setting is where the control channel may put it. */
  predicate SettingsInRange(s: Settings) {
    1 <= s.staleMs <= 3_600_000 && IsFraction(s.kellyFraction) && IsFraction(s.maxExposure)
  }

  /** No sequence of commands takes the settings out of range. */
  lemma {:induction false} CommandsKeepRange(s: Settings, cs: seq<Command>, locked: bool)
    requires SettingsInRange(s)
    ensures SettingsInRange(AfterCommands(s, cs, locked))
  {
    if cs != [] {
      CommandsKeepRange(s, cs[..|cs| - 1], locked);
      FloorInRange(cs[|cs| - 1]);
    }
  }

  lemma FloorInRange(c: Command)
    ensures Acceptable(c) && c.key.value == "stale-ms" ==> 1 <= c.number.value.Floor <= 3_600_000
  {
  }

  /** While a replay digest is being taken, nothing changes. */
  lemma {:induction false} LockedNeverChanges(s: Settings, cs: seq<Command>)
    ensures AfterCommands(s, cs, true) == s
  {
    if cs != [] {
      LockedNeverChanges(s, cs[..|cs| - 1]);
    }
  }

  // ---- what the commands mean, key by key ----

  /** The values each key takes, as the command line names them. */
  predicate Legal(c: Command, key: string) {
    (key == "devig" && (c.text == Some("multiplicative") || c.text == Some("power") || c.text == Some("shin"))) ||
    (key == "stale-ms" && c.number.Some? && 1.0 <= c.number.value <= 3_600_000.0) ||
    (key == "kelly-fraction" && c.number.Some? && 0.0 < c.number.value <= 1.0) ||
    (key == "max-exposure" && c.number.Some? && 0.0 < c.number.value <= 1.0)
  }

  /** The setting this key stands for is the value in the command; milliseconds are cut to whole ones. */
  predicate Granted(s: Settings, c: Command, key: string) {
    (key == "devig" ==>
      (c.text == Some("multiplicative") ==> s.devigMethod == UseMultiplicative) &&
      (c.text == Some("power") ==> s.devigMethod == UsePower) &&
      (c.text == Some("shin") ==> s.devigMethod == UseShin)) &&
    (key == "stale-ms" ==> c.number.Some? && s.staleMs as real <= c.number.value < s.staleMs as real + 1.0) &&
    (key == "kelly-fraction" ==> c.number == Some(s.kellyFraction)) &&
    (key == "max-exposure" ==> c.number == Some(s.maxExposure))
  }

  /** One change, of nothing but the setting this key stands for. */
  predicate OnlyChange(s: Settings, s': Settings, key: string) {
    s'.changes == s.changes + 1 && (key != "devig" ==> s'.devigMethod == s.devigMethod) &&
    (key != "stale-ms" ==> s'.staleMs == s.staleMs) &&
    (key != "kelly-fraction" ==> s'.kellyFraction == s.kellyFraction) &&
    (key != "max-exposure" ==> s'.maxExposure == s.maxExposure)
  }

  /** What a reply names: the key of a "set", or the command that is not one. */
  function KeyNamed(c: Command): string {
    if c.cmd.None? then ""
    else if c.cmd.value != "set" then c.cmd.value
    else if c.key.None? then ""
    else c.key.value
  }

  lemma LegalCommands(c: Command)
    ensures Acceptable(c) <==> c.cmd == Some("set") && c.key.Some? && Legal(c, c.key.value)
  {
  }

  lemma KeyByKey(s: Settings, c: Command)
    requires Acceptable(c)
    ensures OnlyChange(s, Changed(s, c), c.key.value) && Granted(Changed(s, c), c, c.key.value)
  {
  }

  /** The command sets this key. */
  predicate Sets(c: Command, key: string) { c.cmd == Some("set") && c.key == Some(key) && Legal(c, key) }

  /** A setting nobody sets stays as it was. */
  lemma {:induction false} UnsetStays(s: Settings, cs: seq<Command>, key: string)
    requires forall i :: 0 <= i < |cs| ==> !Sets(cs[i], key)
    ensures var s' := AfterCommands(s, cs, false);
      (key == "devig" ==> s'.devigMethod == s.devigMethod) && (key == "stale-ms" ==> s'.staleMs == s.staleMs) &&
      (key == "kelly-fraction" ==> s'.kellyFraction == s.kellyFraction) &&
      (key == "max-exposure" ==> s'.maxExposure == s.maxExposure)
  {
    if cs != [] {
      var init, c := cs[..|cs| - 1], cs[|cs| - 1];
      UnsetStays(s, init, key);
      LegalCommands(c);
      if Acceptable(c) { KeyByKey(AfterCommands(s, init, false), c); }
    }
  }

  /** The last legal command for a key decides its setting, whatever came before and whatever other keys were set. */
  lemma {:induction false} LastCommandDecides(s: Settings, cs: seq<Command>, i: nat, key: string)
    requires i < |cs| && Sets(cs[i], key) && forall j :: i < j < |cs| ==> !Sets(cs[j], key)
    ensures Granted(AfterCommands(s, cs, false), cs[i], key)
  {
    var init, c := cs[..|cs| - 1], cs[|cs| - 1];
    var before := AfterCommands(s, init, false);
    LegalCommands(c);
    if i < |init| {
      LastCommandDecides(s, init, i, key);
      assert !Sets(c, key);
    }
    if Acceptable(c) { KeyByKey(before, c); }
  }

  /** Two batches of commands, one after the other. */
  lemma {:induction false} CommandsJoined(s: Settings, a: seq<Command>, b: seq<Command>, locked: bool)
    ensures AfterCommands(s, a + b, locked) == AfterCommands(AfterCommands(s, a, locked), b, locked)
  {
    if b == [] {
      assert a + b == a;
    } else {
      CommandsJoined(s, a, b[..|b| - 1], locked);
      assert (a + b)[..|a + b| - 1] == a + b[..|b| - 1];
    }
  }

  class LiveConfig {
    var staleMs: u64
    var kellyFraction: real
    var maxExposure: real
    var devigMethod: Method
    var changes: nat

    constructor (staleMs: u64, kellyFraction: real, maxExposure: real, devigMethod: Method)
      ensures Value() == Settings(staleMs, kellyFraction, maxExposure, devigMethod, 0)
    {
      this.staleMs, this.kellyFraction, this.maxExposure := staleMs, kellyFraction, maxExposure;
      this.devigMethod, changes := devigMethod, 0;
    }

    function Value(): Settings
      reads this
    {
      Settings(staleMs, kellyFraction, maxExposure, devigMethod, changes)
    }

    /** Positive replies and changes go together; a refused command leaves every setting alone. */
    method Apply(c: Command, locked: bool) returns (r: Reply)
      modifies this
      ensures r.Ack? <==> !locked && Acceptable(c)
      ensures Value() == AfterCommand(old(Value()), c, locked)
      ensures r.Ack? <==> !locked && c.cmd == Some("set") && c.key.Some? && Legal(c, c.key.value)
      ensures r.Nack? ==> Value() == old(Value())
      ensures r.key == if c.cmd == Some("set") then (if c.key.Some? then c.key.value else "")
        else if c.cmd.Some? then c.cmd.value else ""
      ensures r.Ack? ==> c.key == Some(r.key) && OnlyChange(old(Value()), Value(), r.key) && Granted(Value(), c, r.key)
    {
      ghost var was := Value();
      r := Obey(c, locked);
      LegalCommands(c);
      if r.Ack? { KeyByKey(was, c); }
    }

    method Obey(c: Command, locked: bool) returns (r: Reply)
      modifies this
      ensures (r.Ack? <==> !locked && Acceptable(c)) && (r.Ack? ==> c.key == Some(r.key))
      ensures r.key == KeyNamed(c)
      ensures Value() == AfterCommand(old(Value()), c, locked)
    {
      if c.cmd.None? { return Nack("", "malformed command"); }
      if c.cmd.value != "set" { return Nack(c.cmd.value, "unknown command"); }
      if c.key.None? { return Nack("", "missing key"); }
      var key := c.key.value;
      if locked { return Nack(key, "configuration is locked in --hash mode"); }
      if key == "devig" {
        if c.text.None? { return Nack(key, "value must be a string"); }
        var m := ParseDevig(c.text.value);
        if m.None? { return Nack(key, "expected multiplicative, power, or shin"); }
        devigMethod := m.value;
        changes := changes + 1;
        return Ack(key);
      }
      if c.number.None? { return Nack(key, "value must be a number"); }
      var v := c.number.value;
      if key == "stale-ms" {
        if v < 1.0 || v > MAX_STALE_MS { return Nack(key, "expected 1 to 3600000"); }
        staleMs := v.Floor;
        changes := changes + 1;
        return Ack(key);
      }
      if key == "kelly-fraction" {
        if !(v > 0.0) || v > 1.0 { return Nack(key, "expected 0 < value <= 1"); }
        kellyFraction := v;
        changes := changes + 1;
        return Ack(key);
      }
      if key == "max-exposure" {
        if !(v > 0.0) || v > 1.0 { return Nack(key, "expected 0 < value <= 1"); }
        maxExposure := v;
        changes := changes + 1;
        return Ack(key);
      }
      if key == "seed" || key == "markets" || key == "books" || key == "ticks" {
        return Nack(key, "immutable mid-run: belongs to the feed, not the engine");
      }
      return Nack(key, "unknown key");
    }

    method ApplyAll(cs: seq<Command>, locked: bool)
      modifies this
      ensures Value() == AfterCommands(old(Value()), cs, locked)
    {
      var i := 0;
      while i < |cs|
        invariant 0 <= i <= |cs| && Value() == AfterCommands(old(Value()), cs[..i], locked)
      {
        assert cs[..i + 1][..i] == cs[..i];
        var r := Apply(cs[i], locked);
        i := i + 1;
      }
      assert cs[..i] == cs;
    }
  }
}
