/**
 * The command-line overlay of the configuration (`merge_cli_args` in
 * src/blocksimpy/config/config_loader.py). A configuration is a map from
 * section names to maps from keys to values, held by one mutable object.
 */
module ConfigLoader {

  /** The configuration values that occur: None, numbers, flags and strings. */
  datatype Value = Null | Int(i: int) | Real(r: real) | Bool(b: bool) | Str(s: string)

  /** Python's truthiness of a configuration value. */
  predicate Truthy(v: Value)
  {
    match v
    case Null => false
    case Int(i) => i != 0
    case Real(r) => r != 0.0
    case Bool(b) => b
    case Str(s) => s != ""
  }

  predicate IsNumber(v: Value)
  {
    v.Int? || v.Real?
  }

  /** The numeric value of an `int` or `float` entry. */
  function NumberOf(v: Value): real
    requires IsNumber(v)
  {
    if v.Int? then v.i as real else v.r
  }

  type Section = map<string, Value>
  type Sections = map<string, Section>

  /** One row of the overlay table: argument name, section, key. */
  datatype Target = Target(arg: string, section: string, key: string)

  /** The mutable configuration dictionary. */
  class Config {
    var sections: Sections

    constructor (initial: Sections)
      ensures sections == initial
    {
      sections := initial;
    }
  }

  /** Which command-line argument overwrites which configuration entry, in the source's order. */
  const CliMapping: seq<Target> := [
    Target("nodes", "network", "nodes"),
    Target("neighbors", "network", "neighbors"),
    Target("blocksize", "mining", "blocksize"),
    Target("blocktime", "mining", "blocktime"),
    Target("miners", "mining", "miners"),
    Target("hashrate", "mining", "hashrate"),
    Target("difficulty", "mining", "difficulty"),
    Target("stake", "mining", "stake"),
    Target("consensus", "consensus", "type"),
    Target("blocks", "simulation", "blocks"),
    Target("years", "simulation", "years"),
    Target("wallets", "transactions", "wallets"),
    Target("transactions", "transactions", "transactions_per_wallet"),
    Target("interval", "transactions", "interval"),
    Target("print_int", "simulation", "print_interval"),
    Target("debug", "simulation", "debug"),
    Target("init_reward", "economics", "initial_reward"),
    Target("halving_interval", "economics", "halving_interval")
  ]

  /** The argument was given on the command line: present and not None. */
  predicate Given(args: map<string, Value>, arg: string)
  {
    arg in args && args[arg] != Null
  }

  /** Value of `section`/`key`, if both exist. */
  function Lookup(c: Sections, section: string, key: string): Value
    requires section in c && key in c[section]
  {
    c[section][key]
  }

  /** One step of the overlay loop: write the argument, creating its section if missing. */
  function Apply(c: Sections, args: map<string, Value>, t: Target): Sections
  {
    if Given(args, t.arg) then
      var sec := if t.section in c then c[t.section] else map[];
      c[t.section := sec[t.key := args[t.arg]]]
    else c
  }

  /** The overlay loop run over the rows `m`, in order. */
  function Overlay(c: Sections, args: map<string, Value>, m: seq<Target>): Sections
    decreases |m|
  {
    if m == [] then c else Apply(Overlay(c, args, m[..|m| - 1]), args, m[|m| - 1])
  }

  /** Some row of `m` writes `section`/`key` from a given argument. */
  predicate Writes(args: map<string, Value>, m: seq<Target>, section: string, key: string)
  {
    exists j :: 0 <= j < |m| && m[j].section == section && m[j].key == key && Given(args, m[j].arg)
  }

  /** Some row of `m` writes into `section` from a given argument. */
  predicate TouchesSection(args: map<string, Value>, m: seq<Target>, section: string)
  {
    exists j :: 0 <= j < |m| && m[j].section == section && Given(args, m[j].arg)
  }

  /** No two rows of `m` write the same key, so no two write the same entry. */
  predicate DistinctTargets(m: seq<Target>)
  {
    forall i, j :: 0 <= i < j < |m| ==> m[i].key != m[j].key
  }

  /** Sections exist afterwards exactly when they existed before or a given argument wrote into them. */
  lemma {:induction false} OverlaySections(c: Sections, args: map<string, Value>, m: seq<Target>, section: string)
    ensures section in Overlay(c, args, m) <==> section in c || TouchesSection(args, m, section)
    decreases |m|
  {
    if m != [] {
      var p := m[..|m| - 1];
      OverlaySections(c, args, p, section);
      if TouchesSection(args, p, section) {
        var j :| 0 <= j < |p| && p[j].section == section && Given(args, p[j].arg);
        assert m[j] == p[j];
      }
      if TouchesSection(args, m, section) && !TouchesSection(args, p, section) {
        var j :| 0 <= j < |m| && m[j].section == section && Given(args, m[j].arg);
        assert j == |m| - 1;
      }
    }
  }

  /** An entry that no given argument writes keeps its presence and its value. */
  lemma {:induction false} OverlayKeepsUnwritten(c: Sections, args: map<string, Value>, m: seq<Target>, section: string, key: string)
    requires !Writes(args, m, section, key)
    ensures var o := Overlay(c, args, m);
      (section in o && key in o[section]) <==> (section in c && key in c[section])
    ensures var o := Overlay(c, args, m);
      section in c && key in c[section] ==> o[section][key] == c[section][key]
    decreases |m|
  {
    if m != [] {
      var p := m[..|m| - 1];
      forall j | 0 <= j < |p|
        ensures !(p[j].section == section && p[j].key == key && Given(args, p[j].arg))
      {
        assert p[j] == m[j];
      }
      OverlayKeepsUnwritten(c, args, p, section, key);
    }
  }

  /** With distinct rows, the entry of row `j` holds its argument's value when that argument is given. */
  lemma {:induction false} OverlayWritesGiven(c: Sections, args: map<string, Value>, m: seq<Target>, j: nat)
    requires DistinctTargets(m)
    requires j < |m| && Given(args, m[j].arg)
    ensures var o := Overlay(c, args, m);
      m[j].section in o && m[j].key in o[m[j].section] && o[m[j].section][m[j].key] == args[m[j].arg]
    decreases |m|
  {
    var p := m[..|m| - 1];
    if j < |m| - 1 {
      assert p[j] == m[j];
      OverlayWritesGiven(c, args, p, j);
    }
  }

  /** `merge_cli_args` as a value: the overlay, then `years` clears `simulation.blocks`. */
  function Merged(c: Sections, args: map<string, Value>): Sections
  {
    var o := Overlay(c, args, CliMapping);
    if Given(args, "years") then
      YearsSectionExists(c, args);
      o["simulation" := o["simulation"]["blocks" := Null]]
    else o
  }

  /** When `years` is given, the overlay has created or kept the `simulation` section. */
  lemma YearsSectionExists(c: Sections, args: map<string, Value>)
    requires Given(args, "years")
    ensures "simulation" in Overlay(c, args, CliMapping)
  {
    assert CliMapping[10].arg == "years" && CliMapping[10].section == "simulation";
    OverlaySections(c, args, CliMapping, "simulation");
  }

  /**
   * Overlay the given command-line arguments onto `config` in place and return
   * the same object. An argument that is absent or None changes nothing.
   */
  method MergeCliArgs(config: Config, args: map<string, Value>) returns (r: Config)
    modifies config
    ensures r == config
    ensures config.sections == Merged(old(config.sections), args)
  {
    OverlayRows(config, args, CliMapping);
    if "years" in args && args["years"] != Null {
      YearsSectionExists(old(config.sections), args);
      config.sections := config.sections["simulation" := config.sections["simulation"]["blocks" := Null]];
    }
    r := config;
  }

  /** The loop of `merge_cli_args` over the rows `m`, writing into `config` in place. */
  method OverlayRows(config: Config, args: map<string, Value>, m: seq<Target>)
    modifies config
    ensures config.sections == Overlay(old(config.sections), args, m)
  {
    ghost var c0 := config.sections;
    var i := 0;
    while i < |m|
      invariant 0 <= i <= |m|
      invariant config.sections == Overlay(c0, args, m[..i])
    {
      var t := m[i];
      if t.arg in args {
        var value := args[t.arg];
        if value != Null {
          if t.section !in config.sections {
            config.sections := config.sections[t.section := map[]];
          }
          config.sections := config.sections[t.section := config.sections[t.section][t.key := value]];
        }
      }
      assert m[..i + 1][..i] == m[..i];
      i := i + 1;
    }
    assert m[..i] == m;
  }

  /** No two rows of the source's table write the same entry. */
  lemma CliMappingDistinct()
    ensures DistinctTargets(CliMapping)
  {
    KeysDifferEarly();
    KeysDifferLate();
    KeysDifferAcross(9, 13);
    KeysDifferAcross(13, |CliMapping|);
  }

  /** Rows `i` in `[lo, hi)` and `j` in `[lo', hi')`, `i` before `j`, write different keys. */
  predicate KeysDiffer(m: seq<Target>, lo: nat, hi: nat, lo': nat, hi': nat)
  {
    forall i, j :: lo <= i < hi && lo' <= j < hi' && i < j < |m| ==> m[i].key != m[j].key
  }

  lemma KeysDifferEarly()
    ensures KeysDiffer(CliMapping, 0, 9, 0, 9)
  {
  }

  lemma KeysDifferLate()
    ensures KeysDiffer(CliMapping, 9, |CliMapping|, 9, |CliMapping|)
  {
  }

  lemma KeysDifferAcross(lo': nat, hi': nat)
    requires (lo', hi') == (9, 13) || (lo', hi') == (13, |CliMapping|)
    ensures KeysDiffer(CliMapping, 0, 9, lo', hi')
  {
  }

  /** A given argument's value lands in its entry, except `blocks` when `years` is also given. */
  lemma MergedWritesGiven(c: Sections, args: map<string, Value>, j: nat)
    requires j < |CliMapping| && Given(args, CliMapping[j].arg)
    requires Given(args, "years") ==> CliMapping[j].arg != "blocks"
    ensures var t := CliMapping[j]; var o := Merged(c, args);
      t.section in o && t.key in o[t.section] && o[t.section][t.key] == args[t.arg]
  {
    CliMappingDistinct();
    OverlayWritesGiven(c, args, CliMapping, j);
    if Given(args, "years") {
      assert CliMapping[j].section != "simulation" || CliMapping[j].key != "blocks";
    }
  }

  /** Entries the table does not write from a given argument keep their presence and value. */
  lemma MergedKeepsUnwritten(c: Sections, args: map<string, Value>, section: string, key: string)
    requires !Writes(args, CliMapping, section, key)
    requires Given(args, "years") ==> section != "simulation" || key != "blocks"
    ensures var o := Merged(c, args);
      (section in o && key in o[section]) <==> (section in c && key in c[section])
    ensures var o := Merged(c, args);
      section in c && key in c[section] ==> o[section][key] == c[section][key]
  {
    OverlayKeepsUnwritten(c, args, CliMapping, section, key);
    var o := Overlay(c, args, CliMapping);
    if Given(args, "years") {
      YearsSectionExists(c, args);
      var o' := o["simulation" := o["simulation"]["blocks" := Null]];
      assert Merged(c, args) == o';
      assert (section in o' && key in o'[section]) <==> (section in o && key in o[section]);
    }
  }

  /** A section missing before exists afterwards iff some given argument writes into it. */
  lemma MergedCreatesSections(c: Sections, args: map<string, Value>, section: string)
    ensures section in Merged(c, args) <==> section in c || TouchesSection(args, CliMapping, section)
  {
    OverlaySections(c, args, CliMapping, section);
    if Given(args, "years") {
      YearsSectionExists(c, args);
      var o := Overlay(c, args, CliMapping);
      assert Merged(c, args).Keys == o.Keys;
    }
  }

  /** A given `years` leaves `simulation.blocks` as None, whatever `blocks` said. */
  lemma YearsClearsBlocks(c: Sections, args: map<string, Value>)
    requires Given(args, "years")
    ensures var o := Merged(c, args);
      "simulation" in o && "blocks" in o["simulation"] && o["simulation"]["blocks"] == Null
  {
  }

  /** Without any given argument the configuration is unchanged. */
  lemma {:induction false} NothingGivenNoChange(c: Sections, args: map<string, Value>, m: seq<Target>)
    requires forall a :: !Given(args, a)
    ensures Overlay(c, args, m) == c
    decreases |m|
  {
    if m != [] {
      NothingGivenNoChange(c, args, m[..|m| - 1]);
    }
  }
}
