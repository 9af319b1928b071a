/**
 * The CSS compiler: `rulesReducer`, `pseudoReducer`, `mediaQueryReducer`,
 * `definitionReducer` and `generateCSS`, written as the left folds the
 * source uses, together with a reference layout of the output (globals, then
 * per definition its base blocks, its pseudo blocks and its `@media` blocks)
 * and the lemmas that the folds produce exactly that layout.
 */
module CssCompiler {
  import opened Config
  import opened Text
  import opened Folds
  import opened Tokens

  /** Which selector-building function a `rulesReducer` is given. */
  datatype Variant = Vanilla | Pseudo(token: string) | Media(mediaKey: string)

  /**
   * The `makeSelector` functions: `dec--rule` for base blocks,
   * `dec--rule--strip(pseudo)` followed by the raw pseudo token, and
   * `dec--rule--strip(mediaKey)` with no raw suffix. Name and key are not stripped.
   */
  function Selector(name: string, key: string, v: Variant): string {
    name + "--" + key + Suffix(v)
  }

  /** What follows `name--key` in the selector of a block of variant `v`. */
  function Suffix(v: Variant): string {
    match v
    case Vanilla => ""
    case Pseudo(p) => "--" + Strip(p) + p
    case Media(m) => "--" + Strip(m)
  }

  /** The block `generateCSS` emits for `rule` under selector `sel`: `.sel{name:value}`. */
  function Block(sel: string, name: string, rule: Rule): string {
    "." + sel + "{" + name + ":" + RuleValue(rule) + "}"
  }

  /** The block one rule contributes under variant `v`. */
  function RuleBlock(name: string, v: Variant, rule: Rule): string {
    Block(Selector(name, rule.key, v), name, rule)
  }

  // ---------------------------------------------------------------------
  // The compiler as written: reducers folded with Reduce

  function RulesReducer(name: string, v: Variant): (string, Rule) -> string {
    (accum: string, rule: Rule) => accum + RuleBlock(name, v, rule)
  }

  /** `Ramda.reduce(rulesReducer(name, makeSelector), "", rules)`. */
  function RulesCss(name: string, v: Variant, rules: seq<Rule>): string {
    Reduce(RulesReducer(name, v), "", rules)
  }

  function PseudoReducer(name: string, rules: seq<Rule>): (string, string) -> string {
    (accum: string, pseudo: string) => accum + RulesCss(name, Pseudo(pseudo), rules)
  }

  /** `@media query{...}` wrapping one block per rule. */
  function MediaBlock(name: string, rules: seq<Rule>, mq: MediaQuery): string {
    "@media " + mq.query + "{" + RulesCss(name, Media(mq.mediaKey), rules) + "}"
  }

  function MediaQueryReducer(name: string, rules: seq<Rule>): (string, MediaQuery) -> string {
    (accum: string, mq: MediaQuery) => accum + MediaBlock(name, rules, mq)
  }

  function DefinitionReducer(accum: string, d: Definition): string {
    var vanillaRulesCss := RulesCss(d.name, Vanilla, d.rules);
    var pseudoCss := Reduce(PseudoReducer(d.name, d.rules), "", OrEmpty(d.pseudo));
    var mediaQueryRulesCss := Reduce(MediaQueryReducer(d.name, d.rules), "", OrEmpty(d.media));
    accum + vanillaRulesCss + pseudoCss + mediaQueryRulesCss
  }

  /** `options.globals || ""`. */
  function GlobalsText(options: Options): string {
    match options.globals
    case Some(g) => g
    case None => ""
  }

  /** `generateCSS(defs, options)`. */
  function GenerateCss(defs: seq<Definition>, options: Options): string {
    GlobalsText(options) + Reduce(DefinitionReducer, "", defs)
  }

  // ---------------------------------------------------------------------
  // Reference layout of the output

  /** One block per rule, in rule order. */
  function Blocks(name: string, v: Variant, rules: seq<Rule>): string {
    ConcatMap((rule: Rule) => RuleBlock(name, v, rule), rules)
  }

  /** For each pseudo token in order, one block per rule. */
  function PseudoSection(name: string, rules: seq<Rule>, pseudo: seq<string>): string {
    ConcatMap((p: string) => Blocks(name, Pseudo(p), rules), pseudo)
  }

  function MediaLayout(name: string, rules: seq<Rule>, mq: MediaQuery): string {
    "@media " + mq.query + "{" + Blocks(name, Media(mq.mediaKey), rules) + "}"
  }

  /** For each media entry in order, one `@media` block. */
  function MediaSection(name: string, rules: seq<Rule>, media: seq<MediaQuery>): string {
    ConcatMap((mq: MediaQuery) => MediaLayout(name, rules, mq), media)
  }

  /** Base blocks, then pseudo blocks, then media blocks; a missing section contributes nothing. */
  function DefinitionLayout(d: Definition): string {
    Blocks(d.name, Vanilla, d.rules)
      + PseudoSection(d.name, d.rules, OrEmpty(d.pseudo))
      + MediaSection(d.name, d.rules, OrEmpty(d.media))
  }

  /** The globals, then every definition's CSS in definition order. */
  function CssLayout(defs: seq<Definition>, options: Options): string {
    GlobalsText(options) + ConcatMap(DefinitionLayout, defs)
  }

  // ---------------------------------------------------------------------
  // The folds produce the layout

  lemma RulesCssLayout(name: string, v: Variant, rules: seq<Rule>)
    ensures RulesCss(name, v, rules) == Blocks(name, v, rules)
  {
    ReduceAppends(RulesReducer(name, v), (rule: Rule) => RuleBlock(name, v, rule), "", rules);
  }

  lemma MediaBlockLayout(name: string, rules: seq<Rule>, mq: MediaQuery)
    ensures MediaBlock(name, rules, mq) == MediaLayout(name, rules, mq)
  {
    RulesCssLayout(name, Media(mq.mediaKey), rules);
  }

  lemma PseudoCssLayout(name: string, rules: seq<Rule>, pseudo: seq<string>)
    ensures Reduce(PseudoReducer(name, rules), "", pseudo) == PseudoSection(name, rules, pseudo)
  {
    var g := (p: string) => Blocks(name, Pseudo(p), rules);
    forall acc: string, p: string
      ensures PseudoReducer(name, rules)(acc, p) == acc + g(p)
    {
      RulesCssLayout(name, Pseudo(p), rules);
    }
    ReduceAppends(PseudoReducer(name, rules), g, "", pseudo);
  }

  lemma MediaCssLayout(name: string, rules: seq<Rule>, media: seq<MediaQuery>)
    ensures Reduce(MediaQueryReducer(name, rules), "", media) == MediaSection(name, rules, media)
  {
    var g := (mq: MediaQuery) => MediaLayout(name, rules, mq);
    forall acc: string, mq: MediaQuery
      ensures MediaQueryReducer(name, rules)(acc, mq) == acc + g(mq)
    {
      MediaBlockLayout(name, rules, mq);
    }
    ReduceAppends(MediaQueryReducer(name, rules), g, "", media);
  }

  /** `definitionReducer` appends exactly the definition's layout to its accumulator. */
  lemma DefinitionReducerLayout(accum: string, d: Definition)
    ensures DefinitionReducer(accum, d) == accum + DefinitionLayout(d)
  {
    RulesCssLayout(d.name, Vanilla, d.rules);
    PseudoCssLayout(d.name, d.rules, OrEmpty(d.pseudo));
    MediaCssLayout(d.name, d.rules, OrEmpty(d.media));
  }

  /** `generateCSS` emits the globals, then each definition's base, pseudo and media blocks, in order. */
  lemma GenerateCssLayout(defs: seq<Definition>, options: Options)
    ensures GenerateCss(defs, options) == CssLayout(defs, options)
  {
    forall acc: string, d: Definition
      ensures DefinitionReducer(acc, d) == acc + DefinitionLayout(d)
    {
      DefinitionReducerLayout(acc, d);
    }
    ReduceAppends(DefinitionReducer, DefinitionLayout, "", defs);
  }

  // ---------------------------------------------------------------------
  // Every block of every definition is emitted

  lemma DefinitionEmitted(defs: seq<Definition>, options: Options, i: nat)
    requires i < |defs|
    ensures Occurs(DefinitionLayout(defs[i]), GenerateCss(defs, options))
  {
    GenerateCssLayout(defs, options);
    ConcatMapOccurs(DefinitionLayout, defs, i);
    OccursAfter(DefinitionLayout(defs[i]), GlobalsText(options), ConcatMap(DefinitionLayout, defs));
  }

  lemma BlockInBlocks(name: string, v: Variant, rules: seq<Rule>, j: nat)
    requires j < |rules|
    ensures Occurs(RuleBlock(name, v, rules[j]), Blocks(name, v, rules))
  {
    ConcatMapOccurs((rule: Rule) => RuleBlock(name, v, rule), rules, j);
  }

  /** `.name--key{name:value}` is emitted for every rule of every definition. */
  lemma BaseBlockEmitted(defs: seq<Definition>, options: Options, i: nat, j: nat)
    requires i < |defs| && j < |defs[i].rules|
    ensures Occurs(RuleBlock(defs[i].name, Vanilla, defs[i].rules[j]), GenerateCss(defs, options))
  {
    var d := defs[i];
    BlockInBlocks(d.name, Vanilla, d.rules, j);
    var block := RuleBlock(d.name, Vanilla, d.rules[j]);
    var base := Blocks(d.name, Vanilla, d.rules);
    var pseudo := PseudoSection(d.name, d.rules, OrEmpty(d.pseudo));
    OccursBefore(block, base, pseudo);
    OccursBefore(block, base + pseudo, MediaSection(d.name, d.rules, OrEmpty(d.media)));
    DefinitionEmitted(defs, options, i);
    OccursTrans(RuleBlock(d.name, Vanilla, d.rules[j]), DefinitionLayout(d), GenerateCss(defs, options));
  }

  /** `.name--key--strip(p)p{name:value}` is emitted for every pseudo token and rule. */
  lemma PseudoBlockEmitted(defs: seq<Definition>, options: Options, i: nat, k: nat, j: nat)
    requires i < |defs| && j < |defs[i].rules|
    requires defs[i].pseudo.Some? && k < |defs[i].pseudo.value|
    ensures Occurs(RuleBlock(defs[i].name, Pseudo(defs[i].pseudo.value[k]), defs[i].rules[j]), GenerateCss(defs, options))
  {
    var d := defs[i];
    var p := d.pseudo.value[k];
    var block := RuleBlock(d.name, Pseudo(p), d.rules[j]);
    BlockInBlocks(d.name, Pseudo(p), d.rules, j);
    ConcatMapOccurs((p: string) => Blocks(d.name, Pseudo(p), d.rules), d.pseudo.value, k);
    OccursTrans(block, Blocks(d.name, Pseudo(p), d.rules), PseudoSection(d.name, d.rules, d.pseudo.value));
    var pre := Blocks(d.name, Vanilla, d.rules);
    var post := MediaSection(d.name, d.rules, OrEmpty(d.media));
    OccursWithin(block, pre, PseudoSection(d.name, d.rules, d.pseudo.value), post);
    DefinitionEmitted(defs, options, i);
    OccursTrans(block, DefinitionLayout(d), GenerateCss(defs, options));
  }

  /**
   * Every media entry's `@media query{...}` block is emitted, and inside it
   * `.name--key--strip(mediaKey){name:value}` for every rule.
   */
  lemma MediaBlockEmitted(defs: seq<Definition>, options: Options, i: nat, k: nat, j: nat)
    requires i < |defs| && j < |defs[i].rules|
    requires defs[i].media.Some? && k < |defs[i].media.value|
    ensures Occurs(MediaBlock(defs[i].name, defs[i].rules, defs[i].media.value[k]), GenerateCss(defs, options))
    ensures Occurs(RuleBlock(defs[i].name, Media(defs[i].media.value[k].mediaKey), defs[i].rules[j]),
                   RulesCss(defs[i].name, Media(defs[i].media.value[k].mediaKey), defs[i].rules))
  {
    var d := defs[i];
    var mq := d.media.value[k];
    var wrapped := MediaBlock(d.name, d.rules, mq);
    BlockInBlocks(d.name, Media(mq.mediaKey), d.rules, j);
    RulesCssLayout(d.name, Media(mq.mediaKey), d.rules);
    MediaBlockLayout(d.name, d.rules, mq);
    ConcatMapOccurs((mq: MediaQuery) => MediaLayout(d.name, d.rules, mq), d.media.value, k);
    var pre := Blocks(d.name, Vanilla, d.rules) + PseudoSection(d.name, d.rules, OrEmpty(d.pseudo));
    OccursAfter(wrapped, pre, MediaSection(d.name, d.rules, d.media.value));
    DefinitionEmitted(defs, options, i);
    OccursTrans(wrapped, DefinitionLayout(d), GenerateCss(defs, options));
  }

  // ---------------------------------------------------------------------
  // The shape of one block

  /**
   * A rule block is its selector head `.name--key`, the variant's suffix,
   * then the declaration body `{name:value}`.
   */
  lemma RuleBlockParts(name: string, v: Variant, key: string, value: string, head: string, body: string)
    requires value != ""
    requires head == "." + name + "--" + key
    requires body == "{" + name + ":" + value + "}"
    ensures RuleBlock(name, v, Rule(key, Some(value))) == head + Suffix(v) + body
  {
    var sfx := Suffix(v);
    var sel := Selector(name, key, v);
    assert "." + sel == head + sfx by {
      assert "." + ((name + "--" + key) + sfx) == ("." + (name + "--" + key)) + sfx;
    }
    assert ("." + sel) + "{" + name + ":" + value + "}" == ("." + sel) + ("{" + name + ":" + value + "}");
  }
}
