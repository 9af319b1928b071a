/**
 * `generateStylesheet` and `generate`: the getter map keyed by the
 * camel-cased definition names (a later definition overwrites an earlier one
 * with the same key) and the pair of CSS text and getter map.
 */
module Stylesheet {
  import opened Config
  import opened Folds
  import opened Tokens
  import opened CssCompiler
  import opened Getter

  /** A getter: the function `styleGetter(def)` returns, called under a mode with an argument list. */
  type StyleFn = (Mode, seq<JsValue>) -> GetterResult

  /** `styleGetter(def)`. */
  function GetterOf(d: Definition): StyleFn {
    (mode: Mode, args: seq<JsValue>) => StyleGetter(mode, d, args)
  }

  /** `Ramda.assoc(camelCase(def.name), styleGetter(def), acc)`. */
  function StylesheetReducer(acc: map<string, StyleFn>, d: Definition): map<string, StyleFn> {
    acc[CamelCase(d.name) := GetterOf(d)]
  }

  /** `generateStylesheet(defs)`. */
  function GenerateStylesheet(defs: seq<Definition>): map<string, StyleFn> {
    Reduce(StylesheetReducer, map[], defs)
  }

  /** What `generate(config, options)` returns. */
  datatype Generated = Generated(css: string, stylesheet: map<string, StyleFn>)

  /** `generate(config, options)`: both compilers over the same configuration. */
  function Generate(config: seq<Definition>, options: Options): (g: Generated)
    ensures g.css == CssLayout(config, options)
    ensures g.stylesheet == GenerateStylesheet(config)
  {
    GenerateCssLayout(config, options);
    Generated(GenerateCss(config, options), GenerateStylesheet(config))
  }

  /** No later definition shares the camel-cased name of `defs[i]`. */
  predicate LastWithKey(defs: seq<Definition>, i: nat)
    requires i < |defs|
  {
    forall j :: i < j < |defs| ==> CamelCase(defs[j].name) != CamelCase(defs[i].name)
  }

  lemma StylesheetSnoc(defs: seq<Definition>)
    requires |defs| > 0
    ensures GenerateStylesheet(defs)
         == StylesheetReducer(GenerateStylesheet(defs[..|defs| - 1]), defs[|defs| - 1])
  {
    var n := |defs|;
    ReduceSnoc(StylesheetReducer, map[], defs[..n - 1], defs[n - 1]);
    assert defs[..n - 1] + [defs[n - 1]] == defs;
  }

  /** The map's keys are exactly the camel-cased names of the definitions. */
  lemma {:induction false} StylesheetKeys(defs: seq<Definition>, key: string)
    ensures key in GenerateStylesheet(defs) <==> exists i :: 0 <= i < |defs| && CamelCase(defs[i].name) == key
    decreases |defs|
  {
    if defs != [] {
      var n := |defs|;
      var pre := defs[..n - 1];
      StylesheetSnoc(defs);
      StylesheetKeys(pre, key);
      assert forall i :: 0 <= i < n - 1 ==> pre[i] == defs[i];
    }
  }

  /** Last write wins: a definition no later one shadows owns its key's getter. */
  lemma {:induction false} StylesheetLastWins(defs: seq<Definition>, i: nat)
    requires i < |defs| && LastWithKey(defs, i)
    ensures CamelCase(defs[i].name) in GenerateStylesheet(defs)
    ensures GenerateStylesheet(defs)[CamelCase(defs[i].name)] == GetterOf(defs[i])
    decreases |defs|
  {
    var n := |defs|;
    var pre := defs[..n - 1];
    StylesheetSnoc(defs);
    if i < n - 1 {
      assert pre[i] == defs[i];
      assert LastWithKey(pre, i) by {
        forall j | i < j < |pre| ensures CamelCase(pre[j].name) != CamelCase(pre[i].name) {
          assert pre[j] == defs[j];
        }
      }
      StylesheetLastWins(pre, i);
    }
  }

  /** Each getter in the map is the getter of a definition with that key. */
  lemma {:induction false} StylesheetGetterOrigin(defs: seq<Definition>, key: string)
    requires key in GenerateStylesheet(defs)
    ensures exists i :: 0 <= i < |defs| && CamelCase(defs[i].name) == key
                        && GenerateStylesheet(defs)[key] == GetterOf(defs[i])
    decreases |defs|
  {
    var n := |defs|;
    if defs != [] {
      var pre := defs[..n - 1];
      StylesheetSnoc(defs);
      if key == CamelCase(defs[n - 1].name) {
        assert GenerateStylesheet(defs)[key] == GetterOf(defs[n - 1]);
      } else {
        StylesheetGetterOrigin(pre, key);
        var i :| 0 <= i < |pre| && CamelCase(pre[i].name) == key && GenerateStylesheet(pre)[key] == GetterOf(pre[i]);
        assert pre[i] == defs[i];
      }
    }
  }
}
