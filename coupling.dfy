/**
 * The two compiled artifacts agree: a class name a getter hands out, put
 * after a `.`, is a selector that `generateCSS` emits for the same
 * definition and rule (for a pseudo variant, followed by the raw pseudo
 * token; for a media variant, inside that media query's `@media` block).
 * The CSS does not strip the definition name or the rule key while the
 * class name does, so both must be free of `@` and `:`.
 */
module Coupling {
  import opened Config
  import opened Text
  import opened Tokens
  import opened CssCompiler
  import opened Getter
  import opened Stylesheet

  lemma BaseClassName(d: Definition, k: string, tail: seq<JsValue>)
    requires NoReserved(d.name) && NoReserved(k)
    requires tail == [] || tail == [Null] || tail == [Undefined]
    ensures RenderClassName([Str(d.name)] + ([Str(k)] + tail)) == d.name + "--" + k
  {
    RenderClassNamePair(d.name, k);
    if tail != [] {
      RenderClassNameIgnoresNil([Str(d.name), Str(k)], tail[0], []);
      assert [Str(d.name), Str(k)] + [tail[0]] + [] == [Str(d.name)] + ([Str(k)] + tail);
      assert [Str(d.name), Str(k)] + [] == [Str(d.name), Str(k)];
    } else {
      assert [Str(d.name)] + ([Str(k)] + tail) == [Str(d.name), Str(k)];
    }
  }

  lemma VariantClassName(d: Definition, k: string, v: string)
    requires NoReserved(d.name) && NoReserved(k)
    ensures RenderClassName([Str(d.name)] + [Str(k), Str(v)]) == d.name + "--" + k + "--" + Strip(v)
  {
    RenderClassNameTriple(d.name, k, v);
    assert [Str(d.name)] + [Str(k), Str(v)] == [Str(d.name), Str(k), Str(v)];
  }

  /**
   * `getter(key)`, `getter(key, null)`, `getter(key, undefined)`: a class
   * name returned in non-production mode is `name--key`, and `.name--key`
   * heads the block of a rule with that key.
   */
  lemma BaseClassEmitted(defs: seq<Definition>, options: Options, i: nat, k: string, tail: seq<JsValue>)
    requires i < |defs|
    requires NoReserved(defs[i].name) && NoReserved(k)
    requires tail == [] || tail == [Null] || tail == [Undefined]
    ensures var r := StyleGetter(Development, defs[i], [Str(k)] + tail);
            r.ClassName? ==>
              && r.value == defs[i].name + "--" + k
              && exists j :: 0 <= j < |defs[i].rules| && defs[i].rules[j].key == k
                             && Occurs(Block(r.value, defs[i].name, defs[i].rules[j]), GenerateCss(defs, options))
  {
    var d := defs[i];
    var args := [Str(k)] + tail;
    var r := StyleGetter(Development, d, args);
    if r.ClassName? {
      BaseClassName(d, k, tail);
      assert KnownRule(d, Str(k));
      var j :| 0 <= j < |d.rules| && d.rules[j].key == k;
      BaseBlockEmitted(defs, options, i, j);
      assert Selector(d.name, k, Vanilla) == r.value;
      assert RuleBlock(d.name, Vanilla, d.rules[j]) == Block(r.value, d.name, d.rules[j]);
    }
  }

  /**
   * `getter(key, ":p")`: a class name returned in non-production mode is
   * `name--key--strip(p)`, and that selector followed by the raw `p` heads
   * the pseudo block of a rule with that key.
   */
  lemma PseudoClassEmitted(defs: seq<Definition>, options: Options, i: nat, k: string, p: string)
    requires i < |defs|
    requires NoReserved(defs[i].name) && NoReserved(k)
    requires StartsWith(p, ':')
    ensures var r := StyleGetter(Development, defs[i], [Str(k), Str(p)]);
            r.ClassName? ==>
              && r.value == defs[i].name + "--" + k + "--" + Strip(p)
              && exists j :: 0 <= j < |defs[i].rules| && defs[i].rules[j].key == k
                             && Occurs(Block(r.value + p, defs[i].name, defs[i].rules[j]), GenerateCss(defs, options))
  {
    var d := defs[i];
    var args := [Str(k), Str(p)];
    var r := StyleGetter(Development, d, args);
    if r.ClassName? {
      VariantClassName(d, k, p);
      assert ValidCall(d, args);
      assert PseudoVariant(Str(p));
      var j :| 0 <= j < |d.rules| && d.rules[j].key == k;
      var q :| 0 <= q < |d.pseudo.value| && d.pseudo.value[q] == p;
      PseudoBlockEmitted(defs, options, i, q, j);
      var head := d.name + "--" + k;
      AppendAssoc(head, "--" + Strip(p), p);
      AppendAssoc(head, "--", Strip(p));
      assert Selector(d.name, k, Pseudo(p)) == r.value + p;
      assert RuleBlock(d.name, Pseudo(p), d.rules[j]) == Block(r.value + p, d.name, d.rules[j]);
    }
  }

  /**
   * `getter(key, "@m")`: a class name returned in non-production mode is
   * `name--key--strip(m)`; the definition has a media entry keyed `m`, whose
   * `@media` block is emitted and holds the block headed by that selector.
   */
  lemma MediaClassEmitted(defs: seq<Definition>, options: Options, i: nat, k: string, m: string)
    requires i < |defs|
    requires NoReserved(defs[i].name) && NoReserved(k)
    requires StartsWith(m, '@')
    ensures var d := defs[i];
            var r := StyleGetter(Development, d, [Str(k), Str(m)]);
            r.ClassName? ==>
              && r.value == d.name + "--" + k + "--" + Strip(m)
              && d.media.Some?
              && exists j, q :: 0 <= j < |d.rules| && d.rules[j].key == k
                                && 0 <= q < |d.media.value| && d.media.value[q].mediaKey == m
                                && Occurs(MediaBlock(d.name, d.rules, d.media.value[q]), GenerateCss(defs, options))
                                && Occurs(Block(r.value, d.name, d.rules[j]), RulesCss(d.name, Media(m), d.rules))
  {
    var d := defs[i];
    var args := [Str(k), Str(m)];
    var r := StyleGetter(Development, d, args);
    if r.ClassName? {
      VariantClassName(d, k, m);
      assert ValidCall(d, args);
      assert MediaVariant(Str(m));
      var j :| 0 <= j < |d.rules| && d.rules[j].key == k;
      var q :| 0 <= q < |d.media.value| && d.media.value[q].mediaKey == m;
      MediaBlockEmitted(defs, options, i, q, j);
      AppendAssoc(d.name + "--" + k, "--", Strip(m));
      assert Selector(d.name, k, Media(m)) == r.value;
      assert RuleBlock(d.name, Media(m), d.rules[j]) == Block(r.value, d.name, d.rules[j]);
    }
  }

  // ---------------------------------------------------------------------
  // Through `generate`

  /** The calls the coupling covers: a rule key, optionally one nil, media or pseudo variant. */
  predicate CheckedArgs(args: seq<JsValue>) {
    && 1 <= |args| <= 2
    && args[0].Str? && NoReserved(args[0].s)
    && (|args| == 2 ==> args[1] == Null || args[1] == Undefined || MediaVariant(args[1]) || PseudoVariant(args[1]))
  }

  /** `.c`, then the raw pseudo token if the variant is one, then `{`, occurs in `css`. */
  predicate SelectorEmitted(css: string, c: string, variant: JsValue) {
    if PseudoVariant(variant) then Occurs("." + c + variant.s + "{", css) else Occurs("." + c + "{", css)
  }

  lemma BlockHeadOccurs(sel: string, name: string, rule: Rule, css: string)
    requires Occurs(Block(sel, name, rule), css)
    ensures Occurs("." + sel + "{", css)
  {
    assert Block(sel, name, rule) == ("." + sel + "{") + (name + ":" + RuleValue(rule) + "}");
    OccursPrefix("." + sel + "{", name + ":" + RuleValue(rule) + "}", css);
  }

  lemma BaseSelectorEmitted(defs: seq<Definition>, options: Options, i: nat, args: seq<JsValue>)
    requires i < |defs| && NoReserved(defs[i].name) && CheckedArgs(args)
    requires |args| == 1 || args[1] == Null || args[1] == Undefined
    ensures var r := StyleGetter(Development, defs[i], args);
            r.ClassName? ==> SelectorEmitted(GenerateCss(defs, options), r.value, ArgAt(args, 1))
  {
    var d := defs[i];
    var r := StyleGetter(Development, d, args);
    var css := GenerateCss(defs, options);
    if r.ClassName? {
      var k := args[0].s;
      var tail := args[1..];
      assert args == [Str(k)] + tail;
      BaseClassEmitted(defs, options, i, k, tail);
      var j :| 0 <= j < |d.rules| && d.rules[j].key == k && Occurs(Block(r.value, d.name, d.rules[j]), css);
      BlockHeadOccurs(r.value, d.name, d.rules[j], css);
      assert !PseudoVariant(ArgAt(args, 1));
    }
  }

  lemma MediaSelectorEmitted(defs: seq<Definition>, options: Options, i: nat, args: seq<JsValue>)
    requires i < |defs| && NoReserved(defs[i].name) && CheckedArgs(args)
    requires |args| == 2 && MediaVariant(args[1])
    ensures var r := StyleGetter(Development, defs[i], args);
            r.ClassName? ==> SelectorEmitted(GenerateCss(defs, options), r.value, ArgAt(args, 1))
  {
    var d := defs[i];
    var r := StyleGetter(Development, d, args);
    var css := GenerateCss(defs, options);
    if r.ClassName? {
      var k, m := args[0].s, args[1].s;
      assert args == [Str(k), Str(m)];
      MediaClassEmitted(defs, options, i, k, m);
      var j, q :| 0 <= j < |d.rules| && d.rules[j].key == k
                  && 0 <= q < |d.media.value| && d.media.value[q].mediaKey == m
                  && Occurs(MediaBlock(d.name, d.rules, d.media.value[q]), css)
                  && Occurs(Block(r.value, d.name, d.rules[j]), RulesCss(d.name, Media(m), d.rules));
      var body := RulesCss(d.name, Media(m), d.rules);
      var wrapped := MediaBlock(d.name, d.rules, d.media.value[q]);
      OccursAt("@media " + d.media.value[q].query + "{", body, "}");
      OccursTrans(Block(r.value, d.name, d.rules[j]), body, wrapped);
      OccursTrans(Block(r.value, d.name, d.rules[j]), wrapped, css);
      BlockHeadOccurs(r.value, d.name, d.rules[j], css);
      assert !PseudoVariant(ArgAt(args, 1));
    }
  }

  lemma PseudoSelectorEmitted(defs: seq<Definition>, options: Options, i: nat, args: seq<JsValue>)
    requires i < |defs| && NoReserved(defs[i].name) && CheckedArgs(args)
    requires |args| == 2 && PseudoVariant(args[1])
    ensures var r := StyleGetter(Development, defs[i], args);
            r.ClassName? ==> SelectorEmitted(GenerateCss(defs, options), r.value, ArgAt(args, 1))
  {
    var d := defs[i];
    var r := StyleGetter(Development, d, args);
    var css := GenerateCss(defs, options);
    if r.ClassName? {
      var k, p := args[0].s, args[1].s;
      assert args == [Str(k), Str(p)];
      PseudoClassEmitted(defs, options, i, k, p);
      var j :| 0 <= j < |d.rules| && d.rules[j].key == k && Occurs(Block(r.value + p, d.name, d.rules[j]), css);
      BlockHeadOccurs(r.value + p, d.name, d.rules[j], css);
      AppendAssoc(".", r.value, p);
      assert ArgAt(args, 1) == Str(p) && PseudoVariant(Str(p));
    }
  }

  /**
   * For every key of the getter map `generate` returns, a class name its
   * getter returns in non-production mode for a checked call is a selector
   * of the CSS text `generate` returns.
   */
  lemma GeneratedClassesExist(config: seq<Definition>, options: Options, key: string, args: seq<JsValue>)
    requires forall i :: 0 <= i < |config| && CamelCase(config[i].name) == key ==> NoReserved(config[i].name)
    requires CheckedArgs(args)
    requires key in Generate(config, options).stylesheet
    ensures var g := Generate(config, options);
            var r := g.stylesheet[key](Development, args);
            r.ClassName? ==> SelectorEmitted(g.css, r.value, ArgAt(args, 1))
  {
    var g := Generate(config, options);
    StylesheetGetterOrigin(config, key);
    var i :| 0 <= i < |config| && CamelCase(config[i].name) == key
             && GenerateStylesheet(config)[key] == GetterOf(config[i]);
    assert g.stylesheet[key](Development, args) == StyleGetter(Development, config[i], args);
    GenerateCssLayout(config, options);
    if |args| == 1 || args[1] == Null || args[1] == Undefined {
      BaseSelectorEmitted(config, options, i, args);
    } else if MediaVariant(args[1]) {
      MediaSelectorEmitted(config, options, i, args);
    } else {
      PseudoSelectorEmitted(config, options, i, args);
    }
  }
}
