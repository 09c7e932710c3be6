/** The Deep Rock Galactic deep-dive command: the icon tables and the text of
    each variant, as src/plugins/drg/plugin.rs and the older src/modules/drg.rs
    and src/plugins/drg/poise.rs write them. */
module Drg {
  import Text
  import Seqs
  import opened Wrappers

  /** Two generations of the warning table; the biome and mutator tables are
      the same in both. */
  datatype Generation = OldModule | NewPlugin

  type Table = seq<(string, string)>

  /** Discord's custom emoji tag `<:name:id>`. */
  function Emoji(name: string, id: string): string { "<:" + name + ":" + id + ">" }

  const BIOMES: Table := [
    ("Crystalline Caverns", Emoji("biome_crystalline_caverns", "1152814710819913788")),
    ("Salt Pits", Emoji("biome_salt_pits", "1152814715714682950")),
    ("Fungus Bogs", Emoji("biome_fungus_bogs", "1152814720521343076")),
    ("Radioactive Exclusion Zone", Emoji("biome_radioactive_exclusion_zone", "1152814726624055336")),
    ("Dense Biozone", Emoji("biome_dense_biozone", "1152814733016170588")),
    ("Glacial Strata", Emoji("biome_glacial_strata", "1152814738586222592")),
    ("Hollow Bough", Emoji("biome_hollow_bough", "1152814742398828654")),
    ("Azure Weald", Emoji("biome_azure_weald", "1152814746005930074")),
    ("Magma Core", Emoji("biome_magma_core_icon", "1152814749915029545")),
    ("Sandblasted Corridors", Emoji("biome_sandblasted_corridors", "1152814752293191802"))
  ]

  /** "Volatile Guts" carries a trailing space in both generations. */
  const MUTATORS: Table := [
    ("Critical Weakness", Emoji("mutator_critical_weakness", "1152800323967135856")),
    ("Double XP", Emoji("mutator_double_xp", "1152800395341598810")),
    ("Gold Rush", Emoji("mutator_gold_rush", "1152800396918661130")),
    ("Golden Bugs", Emoji("mutator_golden_bugs", "1152800399150035095")),
    ("Low Gravity", Emoji("mutator_low_gravity", "1152800400651591760")),
    ("Mineral Mania", Emoji("mutator_mineral_mania", "1152800403407257601")),
    ("Rich Atmosphere", Emoji("mutator_rich_atmosphere", "1152800405005275186")),
    ("Volatile Guts", Emoji("mutator_volatile_guts", "1152800406691381340") + " ")
  ]

  const OLD_WARNINGS: Table := [
    ("Cave Leech Cluster", Emoji("warning_cave_leech_cluster", "1152827797476233266")),
    ("Elite Threat", Emoji("warning_elite_threat", "1152827795039342622")),
    ("Exploder Infestation", Emoji("warning_exploder_infestation", "1152827792636002375")),
    ("Haunted Cave", Emoji("warning_haunted_cave", "1152827790761136198")),
    ("Lethal Enemies", Emoji("warning_lethal_enemies", "1152827787493769286")),
    ("Low Oxygen", Emoji("warning_low_oxygen", "1152827817722118276")),
    ("Mactera Plague", Emoji("warning_mactera_plague", "1152827814538645618")),
    ("Parasites", Emoji("warning_parasites", "1152827811933978756")),
    ("Regenerative Bugs", Emoji("warning_regenerative_bugs", "1152827806976311437")),
    ("Rival Presence", Emoji("warning_rival_presence", "1152827803121762356")),
    ("Shield Disruption", Emoji("warning_shield_disruption", "1152827801330798592")),
    ("Swarmageddon", Emoji("warning_swarmageddon", "1152827799715975198"))
  ]

  const NEW_WARNINGS: Table := [
    ("Cave Leech Cluster", Emoji("warn_cave_leech_cluster", "1330838379499360266")),
    ("Elite Threat", Emoji("warn_elite_threat", "1330839232864059392")),
    ("Exploder Infestation", Emoji("warn_exploder_infestation", "1330839222114058260")),
    ("Haunted Cave", Emoji("warn_haunted_cave", "1330839171341750272")),
    ("Lethal Enemies", Emoji("warn_lethal_enemies", "1330839161665617972")),
    ("Low Oxygen", Emoji("warn_low_oxygen", "1330839123040272384")),
    ("Mactera Plague", Emoji("warn_mactera_plague", "1330839114240491531")),
    ("Parasites", Emoji("warn_parasites", "1330839103700336660")),
    ("Regenerative Bugs", Emoji("warn_regenerative_bugs", "1330839021223678038")),
    ("Rival Presence", Emoji("warn_rival_presence", "1330838921784856640")),
    ("Shield Disruption", Emoji("warn_shield_disruption", "1330838830173130783")),
    ("Swarmageddon", Emoji("warn_swarmageddon", "1330838695947014174")),
    ("Bulk Infestation", Emoji("warn_bulk_infestation", "1330839188475744322")),
    ("Lithophage Outbreak", Emoji("warn_lithophage_outbreak", "1330839133500739595"))
  ]

  const PLACEHOLDER := Emoji("warning_placeholder", "1152827809983631390")

  predicate HasKey(table: Table, key: string)
  {
    exists i :: 0 <= i < |table| && table[i].0 == key
  }

  /** A `match` over exact, case-sensitive strings: the first entry whose name
      is `key`, otherwise the fallback arm. */
  function Lookup(table: Table, key: string, otherwise: string): (r: string)
    ensures HasKey(table, key) ==> exists i :: 0 <= i < |table| && table[i].0 == key && r == table[i].1
    ensures !HasKey(table, key) ==> r == otherwise
  {
    if |table| == 0 then otherwise
    else if table[0].0 == key then table[0].1
    else
      var r := Lookup(table[1..], key, otherwise);
      assert HasKey(table, key) ==> HasKey(table[1..], key) by {
        if HasKey(table, key) {
          var i :| 0 <= i < |table| && table[i].0 == key;
          assert table[1..][i - 1] == table[i];
        }
      }
      r
  }

  function BiomeIcon(biome: string): string { Lookup(BIOMES, biome, "") }
  function MutatorIcon(mutator: string): string { Lookup(MUTATORS, mutator, "") }
  function WarningTable(g: Generation): Table { if g == OldModule then OLD_WARNINGS else NEW_WARNINGS }
  function WarningIcon(g: Generation, warning: string): string { Lookup(WarningTable(g), warning, PLACEHOLDER) }

  predicate ValuesNonEmpty(table: Table) { forall i :: 0 <= i < |table| ==> table[i].1 != "" }
  predicate ValuesOneLine(table: Table) { forall i :: 0 <= i < |table| ==> '\n' !in table[i].1 }

  lemma TablesWellFormed()
    ensures ValuesNonEmpty(BIOMES) && ValuesNonEmpty(MUTATORS)
    ensures ValuesOneLine(BIOMES) && ValuesOneLine(MUTATORS) && ValuesOneLine(OLD_WARNINGS) && ValuesOneLine(NEW_WARNINGS)
    ensures '\n' !in PLACEHOLDER
  {
    BiomesOneLine();
    MutatorsOneLine();
    OldWarningsOneLine();
    NewWarningsOneLine();
    EmojiOneLine("warning_placeholder", "1152827809983631390");
  }

  lemma EmojiOneLine(name: string, id: string)
    requires '\n' !in name && '\n' !in id
    ensures Emoji(name, id) != "" && '\n' !in Emoji(name, id)
  {
  }

  lemma BiomesOneLine()
    ensures ValuesNonEmpty(BIOMES) && ValuesOneLine(BIOMES)
  {
    BiomesOneLineHead();
    BiomesOneLineTail();
  }

  lemma BiomesOneLineHead()
    ensures forall i :: 0 <= i < 5 ==> BIOMES[i].1 != "" && '\n' !in BIOMES[i].1
  {
    EmojiOneLine("biome_crystalline_caverns", "1152814710819913788");
    EmojiOneLine("biome_salt_pits", "1152814715714682950");
    EmojiOneLine("biome_fungus_bogs", "1152814720521343076");
    EmojiOneLine("biome_radioactive_exclusion_zone", "1152814726624055336");
    EmojiOneLine("biome_dense_biozone", "1152814733016170588");
  }

  lemma BiomesOneLineTail()
    ensures forall i :: 5 <= i < 10 ==> BIOMES[i].1 != "" && '\n' !in BIOMES[i].1
  {
    EmojiOneLine("biome_glacial_strata", "1152814738586222592");
    EmojiOneLine("biome_hollow_bough", "1152814742398828654");
    EmojiOneLine("biome_azure_weald", "1152814746005930074");
    EmojiOneLine("biome_magma_core_icon", "1152814749915029545");
    EmojiOneLine("biome_sandblasted_corridors", "1152814752293191802");
  }

  lemma MutatorsOneLine()
    ensures ValuesNonEmpty(MUTATORS) && ValuesOneLine(MUTATORS)
  {
    EmojiOneLine("mutator_critical_weakness", "1152800323967135856");
    EmojiOneLine("mutator_double_xp", "1152800395341598810");
    EmojiOneLine("mutator_gold_rush", "1152800396918661130");
    EmojiOneLine("mutator_golden_bugs", "1152800399150035095");
    EmojiOneLine("mutator_low_gravity", "1152800400651591760");
    EmojiOneLine("mutator_mineral_mania", "1152800403407257601");
    EmojiOneLine("mutator_rich_atmosphere", "1152800405005275186");
    EmojiOneLine("mutator_volatile_guts", "1152800406691381340");
  }

  lemma OldWarningsOneLine()
    ensures ValuesOneLine(OLD_WARNINGS)
  {
    OldWarningsOneLineHead();
    OldWarningsOneLineTail();
  }

  lemma OldWarningsOneLineHead()
    ensures forall i :: 0 <= i < 6 ==> '\n' !in OLD_WARNINGS[i].1
  {
    EmojiOneLine("warning_cave_leech_cluster", "1152827797476233266");
    EmojiOneLine("warning_elite_threat", "1152827795039342622");
    EmojiOneLine("warning_exploder_infestation", "1152827792636002375");
    EmojiOneLine("warning_haunted_cave", "1152827790761136198");
    EmojiOneLine("warning_lethal_enemies", "1152827787493769286");
    EmojiOneLine("warning_low_oxygen", "1152827817722118276");
  }

  lemma OldWarningsOneLineTail()
    ensures forall i :: 6 <= i < 12 ==> '\n' !in OLD_WARNINGS[i].1
  {
    EmojiOneLine("warning_mactera_plague", "1152827814538645618");
    EmojiOneLine("warning_parasites", "1152827811933978756");
    EmojiOneLine("warning_regenerative_bugs", "1152827806976311437");
    EmojiOneLine("warning_rival_presence", "1152827803121762356");
    EmojiOneLine("warning_shield_disruption", "1152827801330798592");
    EmojiOneLine("warning_swarmageddon", "1152827799715975198");
  }

  lemma NewWarningsOneLine()
    ensures ValuesOneLine(NEW_WARNINGS)
  {
    NewWarningsOneLineHead();
    NewWarningsOneLineTail();
  }

  lemma NewWarningsOneLineHead()
    ensures forall i :: 0 <= i < 7 ==> '\n' !in NEW_WARNINGS[i].1
  {
    EmojiOneLine("warn_cave_leech_cluster", "1330838379499360266");
    EmojiOneLine("warn_elite_threat", "1330839232864059392");
    EmojiOneLine("warn_exploder_infestation", "1330839222114058260");
    EmojiOneLine("warn_haunted_cave", "1330839171341750272");
    EmojiOneLine("warn_lethal_enemies", "1330839161665617972");
    EmojiOneLine("warn_low_oxygen", "1330839123040272384");
    EmojiOneLine("warn_mactera_plague", "1330839114240491531");
  }

  lemma NewWarningsOneLineTail()
    ensures forall i :: 7 <= i < 14 ==> '\n' !in NEW_WARNINGS[i].1
  {
    EmojiOneLine("warn_parasites", "1330839103700336660");
    EmojiOneLine("warn_regenerative_bugs", "1330839021223678038");
    EmojiOneLine("warn_rival_presence", "1330838921784856640");
    EmojiOneLine("warn_shield_disruption", "1330838830173130783");
    EmojiOneLine("warn_swarmageddon", "1330838695947014174");
    EmojiOneLine("warn_bulk_infestation", "1330839188475744322");
    EmojiOneLine("warn_lithophage_outbreak", "1330839133500739595");
  }

  /** A biome gets an icon exactly when it is one of the ten named ones. */
  lemma BiomeIconIff(biome: string)
    ensures BiomeIcon(biome) != "" <==> HasKey(BIOMES, biome)
  {
    TablesWellFormed();
  }

  /** A mutator gets an icon exactly when it is one of the eight named ones. */
  lemma MutatorIconIff(mutator: string)
    ensures MutatorIcon(mutator) != "" <==> HasKey(MUTATORS, mutator)
  {
    TablesWellFormed();
  }

  /** An unknown warning shows the placeholder; the newer table knows every
      warning the older one did, and two more. */
  lemma WarningTables(warning: string)
    ensures !HasKey(WarningTable(OldModule), warning) ==> WarningIcon(OldModule, warning) == PLACEHOLDER
    ensures !HasKey(WarningTable(NewPlugin), warning) ==> WarningIcon(NewPlugin, warning) == PLACEHOLDER
    ensures HasKey(OLD_WARNINGS, warning) ==> HasKey(NEW_WARNINGS, warning)
    ensures HasKey(NEW_WARNINGS, "Bulk Infestation") && !HasKey(OLD_WARNINGS, "Bulk Infestation")
    ensures HasKey(NEW_WARNINGS, "Lithophage Outbreak") && !HasKey(OLD_WARNINGS, "Lithophage Outbreak")
  {
    OldNamesKept(warning);
    NewNames();
  }

  /** The newer table starts with the older one's names, in the same order. */
  lemma OldNamesKept(warning: string)
    ensures HasKey(OLD_WARNINGS, warning) ==> HasKey(NEW_WARNINGS, warning)
  {
    if HasKey(OLD_WARNINGS, warning) {
      var i :| 0 <= i < |OLD_WARNINGS| && OLD_WARNINGS[i].0 == warning;
      assert NEW_WARNINGS[i].0 == OLD_WARNINGS[i].0;
    }
  }

  /** The two warnings only the newer table names. */
  lemma NewNames()
    ensures HasKey(NEW_WARNINGS, "Bulk Infestation") && !HasKey(OLD_WARNINGS, "Bulk Infestation")
    ensures HasKey(NEW_WARNINGS, "Lithophage Outbreak") && !HasKey(OLD_WARNINGS, "Lithophage Outbreak")
  {
    assert NEW_WARNINGS[12].0 == "Bulk Infestation";
    assert NEW_WARNINGS[13].0 == "Lithophage Outbreak";
  }

  datatype Stage = Stage(id: int, primary: string, secondary: string,
                         mutator: Option<string>, warning: Option<string>)
  datatype Variant = Variant(name: string, biome: string, seed: int, stages: seq<Stage>)

  /** An absent warning or mutator renders as nothing, not as the placeholder. */
  function WarningText(g: Generation, w: Option<string>): (r: string)
    ensures w.None? ==> r == ""
    ensures w.Some? ==> r == WarningIcon(g, w.value)
  {
    match w case Some(x) => WarningIcon(g, x) case None => ""
  }

  function MutatorText(m: Option<string>): (r: string)
    ensures m.None? ==> r == ""
    ensures m.Some? ==> r == MutatorIcon(m.value)
  {
    match m case Some(x) => MutatorIcon(x) case None => ""
  }

  function StageHeader(g: Generation, s: Stage): string
  {
    "Stage " + Text.IntToStr(s.id) + ": " + WarningText(g, s.warning) + MutatorText(s.mutator)
  }

  /** The three lines a stage contributes. */
  function StageLines(g: Generation, s: Stage): seq<string>
  {
    [StageHeader(g, s), "- " + s.primary, "- " + s.secondary]
  }

  function StageText(g: Generation, s: Stage): string
  {
    "Stage " + Text.IntToStr(s.id) + ": " + WarningText(g, s.warning) + MutatorText(s.mutator) +
    "\n- " + s.primary + "\n- " + s.secondary
  }

  function StageTexts(g: Generation, stages: seq<Stage>): (r: seq<string>)
    ensures |r| == |stages| && forall k :: 0 <= k < |stages| ==> r[k] == StageText(g, stages[k])
  {
    seq(|stages|, k requires 0 <= k < |stages| => StageText(g, stages[k]))
  }

  /** `Display for Variant`. */
  function VariantText(g: Generation, v: Variant): string
  {
    "Seed: `" + Text.IntToStr(v.seed) + "`\n" + Text.Join(StageTexts(g, v.stages), "\n")
  }

  predicate OneLine(s: Stage) { '\n' !in s.primary && '\n' !in s.secondary }

  lemma MutatorOneLine(m: Option<string>)
    ensures '\n' !in MutatorText(m)
  {
    TablesWellFormed();
    if m.Some? {
      var t := MUTATORS;
      if HasKey(t, m.value) {
        var i :| 0 <= i < |t| && t[i].0 == m.value && MutatorIcon(m.value) == t[i].1;
      }
    }
  }

  lemma WarningOneLine(g: Generation, w: Option<string>)
    ensures '\n' !in WarningText(g, w)
  {
    TablesWellFormed();
    if w.Some? {
      var t := WarningTable(g);
      if HasKey(t, w.value) {
        var i :| 0 <= i < |t| && t[i].0 == w.value && WarningIcon(g, w.value) == t[i].1;
      }
    }
  }

  /** A stage's text is its three lines, the header showing only icons. */
  lemma StageTextLines(g: Generation, s: Stage)
    requires OneLine(s)
    ensures StageText(g, s) == Text.Join(StageLines(g, s), "\n")
    ensures Text.Split(StageText(g, s), '\n') == StageLines(g, s)
  {
    var ls := StageLines(g, s);
    StageTextIsJoin(g, s);
    StageHeaderOneLine(g, s);
    assert '\n' !in ls[1] && '\n' !in ls[2];
    Text.SplitJoin(ls, '\n');
  }

  lemma StageTextIsJoin(g: Generation, s: Stage)
    ensures StageText(g, s) == Text.Join(StageLines(g, s), "\n")
  {
    var ls := StageLines(g, s);
    JoinThree(ls[0], ls[1], ls[2], "\n");
    assert ls == [ls[0], ls[1], ls[2]];
    var h := StageHeader(g, s);
    assert StageText(g, s) == h + "\n- " + s.primary + "\n- " + s.secondary;
    assert "\n- " == "\n" + "- ";
  }

  lemma JoinThree(a: string, b: string, c: string, sep: string)
    ensures Text.Join([a, b, c], sep) == a + sep + b + sep + c
  {
    assert [a, b, c][1..] == [b, c];
    assert [b, c][1..] == [c];
    assert Text.Join([b, c], sep) == b + sep + c;
    assert a + sep + (b + sep + c) == a + sep + b + sep + c;
  }

  lemma StageHeaderOneLine(g: Generation, s: Stage)
    requires OneLine(s)
    ensures '\n' !in StageHeader(g, s)
  {
    Text.SeparatorNotInDecimal(s.id, '\n');
    WarningOneLine(g, s.warning);
    MutatorOneLine(s.mutator);
    NoNewlineConcat5("Stage ", Text.IntToStr(s.id), ": ", WarningText(g, s.warning), MutatorText(s.mutator));
  }

  lemma NoNewlineConcat5(a: string, b: string, c: string, d: string, e: string)
    requires '\n' !in a && '\n' !in b && '\n' !in c && '\n' !in d && '\n' !in e
    ensures '\n' !in a + b + c + d + e
  {
  }

  function AllStageLines(g: Generation, stages: seq<Stage>): (r: seq<seq<string>>)
    ensures |r| == |stages| && forall k :: 0 <= k < |stages| ==> r[k] == StageLines(g, stages[k])
  {
    seq(|stages|, k requires 0 <= k < |stages| => StageLines(g, stages[k]))
  }

  function SeedLine(v: Variant): string { "Seed: `" + Text.IntToStr(v.seed) + "`" }

  /** A variant's text is the seed line followed by every stage's lines, in order;
      a variant without stages splits into the seed line and an empty last line. */
  lemma VariantTextLines(g: Generation, v: Variant)
    requires forall k :: 0 <= k < |v.stages| ==> OneLine(v.stages[k])
    ensures |v.stages| >= 1 ==>
      Text.Split(VariantText(g, v), '\n') == [SeedLine(v)] + Seqs.Flatten(AllStageLines(g, v.stages))
    ensures |v.stages| == 0 ==> Text.Split(VariantText(g, v), '\n') == [SeedLine(v), ""]
  {
    if |v.stages| == 0 {
      VariantTextIsJoin(g, v);
      Text.SeparatorNotInDecimal(v.seed, '\n');
      Text.SplitJoin([SeedLine(v), ""], '\n');
    } else {
      StagedVariantLines(g, v);
    }
  }

  lemma StagedVariantLines(g: Generation, v: Variant)
    requires |v.stages| >= 1 && forall k :: 0 <= k < |v.stages| ==> OneLine(v.stages[k])
    ensures Text.Split(VariantText(g, v), '\n') == [SeedLine(v)] + Seqs.Flatten(AllStageLines(g, v.stages))
  {
    VariantTextIsJoin(g, v);
    Text.SeparatorNotInDecimal(v.seed, '\n');
    var all := [SeedLine(v)] + Seqs.Flatten(AllStageLines(g, v.stages));
    forall j | 0 <= j < |all| ensures '\n' !in all[j] {
      if j > 0 {
        FlatLineOneLine(g, v.stages, j - 1);
      }
    }
    Text.SplitJoin(all, '\n');
  }

  /** `Display for Variant` is a newline join: of the seed line and every stage's
      lines, or, without stages, of the seed line and an empty last line. */
  lemma VariantTextIsJoin(g: Generation, v: Variant)
    ensures |v.stages| >= 1 ==>
      VariantText(g, v) == Text.Join([SeedLine(v)] + Seqs.Flatten(AllStageLines(g, v.stages)), "\n")
    ensures |v.stages| == 0 ==>
      VariantText(g, v) == SeedLine(v) + "\n" && VariantText(g, v) == Text.Join([SeedLine(v), ""], "\n")
  {
    VariantTextSplit(g, v);
    if |v.stages| == 0 {
      assert StageTexts(g, v.stages) == [];
      SeedOnly(SeedLine(v));
    } else {
      var ls := AllStageLines(g, v.stages);
      StageTextsAreJoins(g, v.stages);
      JoinFlatten(ls, "\n");
      FlattenOfThrees(ls);
      SeedJoin(SeedLine(v), Text.Join(StageTexts(g, v.stages), "\n"), Seqs.Flatten(ls));
    }
  }

  /** The seed line over an empty stage list. */
  lemma SeedOnly(seed: string)
    ensures seed + "\n" == Text.Join([seed, ""], "\n")
  {
    assert [seed, ""][1..] == [""];
  }

  lemma VariantTextSplit(g: Generation, v: Variant)
    ensures VariantText(g, v) == SeedLine(v) + "\n" + Text.Join(StageTexts(g, v.stages), "\n")
  {
    SeedSplit(Text.IntToStr(v.seed), Text.Join(StageTexts(g, v.stages), "\n"));
  }

  lemma SeedSplit(n: string, body: string)
    ensures "Seed: `" + n + "`\n" + body == ("Seed: `" + n + "`") + "\n" + body
  {
    assert "`\n" == "`" + "\n";
  }

  /** The seed line put in front of the joined stage lines. */
  lemma SeedJoin(seed: string, body: string, flat: seq<string>)
    requires |flat| >= 1 && body == Text.Join(flat, "\n")
    ensures seed + "\n" + body == Text.Join([seed] + flat, "\n")
  {
    JoinAppend([seed], flat, "\n");
  }

  lemma StageTextsAreJoins(g: Generation, stages: seq<Stage>)
    ensures var ls := AllStageLines(g, stages);
      StageTexts(g, stages) == seq(|ls|, k requires 0 <= k < |ls| => Text.Join(ls[k], "\n"))
  {
    var ls := AllStageLines(g, stages);
    forall k | 0 <= k < |ls| ensures StageTexts(g, stages)[k] == Text.Join(ls[k], "\n") {
      StageTextIsJoin(g, stages[k]);
    }
  }

  lemma FlattenOfThrees(ls: seq<seq<string>>)
    requires |ls| >= 1 && forall k :: 0 <= k < |ls| ==> |ls[k]| == 3
    ensures |Seqs.Flatten(ls)| >= 1
  {
    assert Seqs.Flatten(ls) == ls[0] + Seqs.Flatten(ls[1..]);
  }

  lemma FlatLineOneLine(g: Generation, stages: seq<Stage>, j: nat)
    requires forall k :: 0 <= k < |stages| ==> OneLine(stages[k])
    requires j < |Seqs.Flatten(AllStageLines(g, stages))|
    ensures '\n' !in Seqs.Flatten(AllStageLines(g, stages))[j]
  {
    var ls := AllStageLines(g, stages);
    forall k, m | 0 <= k < |ls| && 0 <= m < |ls[k]| ensures '\n' !in ls[k][m] {
      StageHeaderOneLine(g, stages[k]);
    }
    FlattenNoNewline(ls, j);
  }

  /** Flattening keeps every member as it was, so lines without a newline stay so. */
  lemma {:induction false} FlattenNoNewline(ls: seq<seq<string>>, j: nat)
    requires forall k, m :: 0 <= k < |ls| && 0 <= m < |ls[k]| ==> '\n' !in ls[k][m]
    requires j < |Seqs.Flatten(ls)|
    ensures '\n' !in Seqs.Flatten(ls)[j]
    decreases |ls|
  {
    assert Seqs.Flatten(ls) == ls[0] + Seqs.Flatten(ls[1..]);
    if j < |ls[0]| {
      assert Seqs.Flatten(ls)[j] == ls[0][j];
    } else {
      FlattenNoNewline(ls[1..], j - |ls[0]|);
    }
  }

  /** Joining groups and then the joined groups is joining all their members. */
  lemma {:induction false} JoinFlatten(ls: seq<seq<string>>, sep: string)
    requires forall k :: 0 <= k < |ls| ==> |ls[k]| >= 1
    ensures Text.Join(seq(|ls|, k requires 0 <= k < |ls| => Text.Join(ls[k], sep)), sep) == Text.Join(Seqs.Flatten(ls), sep)
    decreases |ls|
  {
    var joined := seq(|ls|, k requires 0 <= k < |ls| => Text.Join(ls[k], sep));
    if |ls| == 1 {
      assert Seqs.Flatten(ls) == ls[0] + Seqs.Flatten(ls[1..]);
      assert Seqs.Flatten(ls) == ls[0];
    } else if |ls| > 1 {
      var rest := seq(|ls| - 1, k requires 0 <= k < |ls| - 1 => Text.Join(ls[1..][k], sep));
      assert joined[1..] == rest;
      JoinFlatten(ls[1..], sep);
      assert Seqs.Flatten(ls) == ls[0] + Seqs.Flatten(ls[1..]);
      assert Seqs.Flatten(ls[1..]) == ls[1] + Seqs.Flatten(ls[2..]);
      JoinAppend(ls[0], Seqs.Flatten(ls[1..]), sep);
    }
  }

  lemma {:induction false} JoinAppend(a: seq<string>, b: seq<string>, sep: string)
    requires |a| >= 1 && |b| >= 1
    ensures Text.Join(a + b, sep) == Text.Join(a, sep) + sep + Text.Join(b, sep)
    decreases |a|
  {
    if |a| == 1 {
      assert (a + b)[1..] == b;
    } else {
      assert (a + b)[1..] == a[1..] + b;
      JoinAppend(a[1..], b, sep);
    }
  }

  /** One embed field. */
  datatype Field = Field(title: string, value: string, inline: bool)

  /** The fields of the reply: one per variant, in the order the API returned
      them, titled by name and biome icon and valued with the variant's text. */
  function Fields(g: Generation, variants: seq<Variant>): (r: seq<Field>)
    ensures |r| == |variants|
    ensures forall k :: 0 <= k < |variants| ==>
      r[k] == Field(variants[k].name + " " + BiomeIcon(variants[k].biome), VariantText(g, variants[k]), true)
  {
    seq(|variants|, k requires 0 <= k < |variants| =>
      Field(variants[k].name + " " + BiomeIcon(variants[k].biome), VariantText(g, variants[k]), true))
  }

  /** A variant in an unknown biome keeps its name followed by a bare space. */
  lemma UnknownBiomeTitle(g: Generation, v: Variant)
    requires !HasKey(BIOMES, v.biome)
    ensures Fields(g, [v])[0].title == v.name + " "
  {
  }
}
