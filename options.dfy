/** The options record that `cleanText` reads, the named presets, and the two
    ways the page rewrites the record: applying a preset and resetting. The
    record's boolean flags are a map from option name to value; the em-dash
    strategy, the one option that is not a flag, is a field of its own, so the
    key loop of the preset handler never meets it. */
module Options {
  import opened Cleaning

  /** `PRESETS`: every preset lists only the options it turns on. */
  const Presets: map<string, map<string, bool>> := map[
    "common" := map["bold" := true, "italic" := true, "headers" := true, "lists" := true,
                    "smartQuotes" := true, "dashes" := true, "spacing" := true, "breaks" := true,
                    "separators" := true],
    "light" := map["bold" := true, "italic" := true, "headers" := true, "lists" := true,
                   "links" := true, "smartQuotes" := true, "spacing" := true],
    "medium" := map["bold" := true, "italic" := true, "headers" := true, "lists" := true,
                    "links" := true, "code" := true, "smartQuotes" := true, "dashes" := true,
                    "ellipsis" := true, "spacing" := true, "breaks" := true, "separators" := true],
    "deep" := AllOn,
    "nuclear" := AllOn
  ]

  /** All nineteen options on: the `deep` and `nuclear` presets, and the
      options the page starts with. */
  const AllOn: map<string, bool> := map[
    "bold" := true, "italic" := true, "headers" := true, "lists" := true,
    "links" := true, "code" := true, "blockquotes" := true, "tables" := true,
    "smartQuotes" := true, "dashes" := true, "ellipsis" := true, "bullets" := true,
    "formulaic" := true, "transitions" := true, "hedging" := true, "parenthetical" := true,
    "spacing" := true, "breaks" := true, "separators" := true]

  /** `!!p[k]`: an option the preset does not list reads as false. */
  predicate Listed(p: map<string, bool>, k: string) {
    k in p && p[k]
  }

  /** The flags after a preset: the same option names, each set to whether
      the preset turns it on; an option the preset does not list is off. */
  function WithPreset(flags: map<string, bool>, p: map<string, bool>): (r: map<string, bool>)
    ensures r.Keys == flags.Keys
    ensures forall k :: k in r ==> (r[k] <==> k in p && p[k])
  {
    map k | k in flags :: Listed(p, k)
  }

  /** `state.options`. */
  class Settings {
    var flags: map<string, bool>
    var emDashStrategy: string

    /** The options the page starts with: every rule on, strategy `auto`. */
    constructor ()
      ensures flags == Presets["deep"] && emDashStrategy == "auto"
    {
      flags := AllOn;
      emDashStrategy := "auto";
    }

    /** What `cleanText` is handed. */
    function Config(): Cleaning.Config
      reads this
    {
      Cleaning.Config(flags, emDashStrategy)
    }

    /** A click on a preset button: an unknown name changes nothing; a known
        one sets every flag the record has to whether the preset lists it,
        and leaves the strategy alone. */
    method ApplyPreset(name: string)
      modifies this
      ensures name !in Presets ==> flags == old(flags)
      ensures name in Presets ==> flags == WithPreset(old(flags), Presets[name])
      ensures emDashStrategy == old(emDashStrategy)
    {
      if name !in Presets {
        return;
      }
      var p := Presets[name];
      var todo := flags.Keys;
      while todo != {}
        invariant todo <= flags.Keys == old(flags).Keys
        invariant forall k :: k in flags ==> flags[k] == if k in todo then old(flags)[k] else Listed(p, k)
        invariant emDashStrategy == old(emDashStrategy)
        decreases |todo|
      {
        var k :| k in todo;
        flags := flags[k := k in p && p[k]];
        todo := todo - {k};
      }
    }

    /** `resetAllOptions`: the `deep` flags are copied over the record and the
        strategy goes back to `auto`; options the preset does not list keep
        their value. */
    method Reset()
      modifies this
      ensures flags == old(flags) + Presets["deep"]
      ensures emDashStrategy == "auto"
    {
      flags := flags + Presets["deep"];
      emDashStrategy := "auto";
    }
  }

  /** The five presets: every one lists only options of the record, and
      only to turn them on; `deep` and `nuclear` list them all. */
  lemma PresetsShape()
    ensures Presets.Keys == {"common", "light", "medium", "deep", "nuclear"}
    ensures forall n, k :: n in Presets && k in Presets[n] ==> k in AllOn && Presets[n][k]
    ensures Presets["deep"] == Presets["nuclear"] == AllOn
  {
    PresetWithin(Presets["common"]);
    PresetWithin(Presets["light"]);
    PresetWithin(Presets["medium"]);
  }

  /** A preset listing options of the record, each as on. */
  lemma PresetWithin(p: map<string, bool>)
    requires p == Presets["common"] || p == Presets["light"] || p == Presets["medium"]
    ensures forall k :: k in p ==> k in AllOn && p[k]
  {
  }

  /** After a preset a rule runs exactly when the record has its option and
      the preset lists it. */
  lemma PresetEnables(flags: map<string, bool>, name: string, strategy: string, k: Rule)
    requires name in Presets
    ensures Enabled(Cleaning.Config(WithPreset(flags, Presets[name]), strategy), k)
        <==> FlagName(k) in flags && Listed(Presets[name], FlagName(k))
  { }

  /** Applying the same preset twice is applying it once. */
  lemma PresetIdempotent(flags: map<string, bool>, p: map<string, bool>)
    ensures WithPreset(WithPreset(flags, p), p) == WithPreset(flags, p)
  {
  }

  /** What a preset leaves depends only on the option names, not on the
      values they had. */
  lemma PresetForgetsValues(f: map<string, bool>, g: map<string, bool>, p: map<string, bool>)
    requires f.Keys == g.Keys
    ensures WithPreset(f, p) == WithPreset(g, p)
  { }

  /** After a reset every rule runs and the strategy is `auto`, whatever the
      record held before. */
  lemma ResetEnablesAll(flags: map<string, bool>, k: Rule)
    ensures Enabled(Cleaning.Config(flags + Presets["deep"], "auto"), k)
  {
    assert Presets["deep"] == AllOn;
    AllOnHasRule(k);
  }

  /** Every rule's option is on in `AllOn`. */
  lemma AllOnHasRule(k: Rule)
    ensures FlagName(k) in AllOn && AllOn[FlagName(k)]
  {
    match k
    case Bold => case Italic => case Headers => case Lists =>
    case Links => case Code => case Blockquotes => case Tables =>
    case SmartQuotes => case Ellipsis => case Bullets => case Dashes =>
    case Formulaic => case Transitions => case Hedging => case Parenthetical =>
    case Separators => case Breaks => case Spacing =>
  }

  /** On the record the page starts with, every preset turns on exactly the
      rules it lists and turns off the others. */
  lemma PresetFromStart(name: string, k: Rule)
    requires name in Presets
    ensures Enabled(Cleaning.Config(WithPreset(AllOn, Presets[name]), "auto"), k) <==> Listed(Presets[name], FlagName(k))
  {
    AllOnHasRule(k);
  }
}
