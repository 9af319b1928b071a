/**
 * `styleGetter`: the class-name getter of one definition. A `null` rule
 * short-circuits; outside production mode the rule key and the second
 * argument are validated against the definition; then the class name is
 * rendered from the definition's name and every argument.
 */
module Getter {
  import opened Config
  import opened Text
  import opened Folds
  import opened Tokens

  /** `process.env.NODE_ENV`, read when a getter is called: `"production"` or anything else. */
  datatype Mode = Production | Development

  /** The five `console.error` reports. */
  datatype GetterError =
    | UnknownRule
    | MissingMediaSection
    | UnknownMediaKey
    | MissingPseudoSection
    | UnknownPseudoKey

  /**
   * What a getter returns: `null`, the `undefined` that `console.error`
   * returns after reporting `error`, or a class name.
   */
  datatype GetterResult = NullClass | Logged(error: GetterError) | ClassName(value: string)

  /** `const [rule, arg] = args`: a missing position reads as `undefined`. */
  function ArgAt(args: seq<JsValue>, i: nat): (v: JsValue)
    ensures i < |args| ==> v == args[i]
    ensures i >= |args| ==> v == Undefined
  {
    if i < |args| then args[i] else Undefined
  }

  // ---------------------------------------------------------------------
  // What a valid call is, stated over the definition

  predicate KnownRule(d: Definition, rule: JsValue) {
    rule.Str? && exists i :: 0 <= i < |d.rules| && d.rules[i].key == rule.s
  }

  predicate KnownMedia(media: seq<MediaQuery>, key: string) {
    exists i :: 0 <= i < |media| && media[i].mediaKey == key
  }

  /** A truthy argument starting with `@` names a media query. */
  predicate MediaVariant(arg: JsValue) {
    Truthy(arg) && StartsWith(arg.s, '@')
  }

  /** A truthy argument starting with `:` names a pseudo class or element. */
  predicate PseudoVariant(arg: JsValue) {
    Truthy(arg) && StartsWith(arg.s, ':')
  }

  /** The checks of non-production mode pass for `args`: only the rule key and `args[1]` are examined. */
  predicate ValidCall(d: Definition, args: seq<JsValue>) {
    var arg := ArgAt(args, 1);
    && KnownRule(d, ArgAt(args, 0))
    && (MediaVariant(arg) ==> d.media.Some? && KnownMedia(d.media.value, arg.s))
    && (PseudoVariant(arg) ==> d.pseudo.Some? && arg.s in d.pseudo.value)
  }

  // ---------------------------------------------------------------------
  // The getter as written

  /** The checks at the head of a non-production call, in source order; `None` when all pass. */
  function Check(d: Definition, rule: JsValue, arg: JsValue): Option<GetterError> {
    if Find((r: Rule) => Str(r.key) == rule, d.rules).None? then Some(UnknownRule)
    else if Truthy(arg) then
      var isPseudo := StartsWith(arg.s, ':');
      var isMedia := StartsWith(arg.s, '@');
      if isMedia && d.media.None? then Some(MissingMediaSection)
      else if isMedia && Find((mq: MediaQuery) => mq.mediaKey == arg.s, d.media.value).None? then Some(UnknownMediaKey)
      else if isPseudo && d.pseudo.None? then Some(MissingPseudoSection)
      else if isPseudo && Find((p: string) => p == arg.s, d.pseudo.value).None? then Some(UnknownPseudoKey)
      else None
    else None
  }

  /** `styleGetter(d)(...args)` when `NODE_ENV` is `mode`. */
  function StyleGetter(mode: Mode, d: Definition, args: seq<JsValue>): (r: GetterResult)
    ensures r == NullClass <==> ArgAt(args, 0) == Null
    ensures r.ClassName? ==> r.value == RenderClassName([Str(d.name)] + args)
    ensures mode == Production ==> (r.ClassName? <==> ArgAt(args, 0) != Null)
    ensures mode == Development && ArgAt(args, 0) != Null ==> (r.ClassName? <==> ValidCall(d, args))
    ensures r == Logged(UnknownRule) <==>
              mode == Development && ArgAt(args, 0) != Null && !KnownRule(d, ArgAt(args, 0))
    ensures r == Logged(MissingMediaSection) <==>
              mode == Development && ArgAt(args, 0) != Null && KnownRule(d, ArgAt(args, 0))
              && MediaVariant(ArgAt(args, 1)) && d.media.None?
    ensures r == Logged(UnknownMediaKey) <==>
              mode == Development && ArgAt(args, 0) != Null && KnownRule(d, ArgAt(args, 0))
              && MediaVariant(ArgAt(args, 1)) && d.media.Some? && !KnownMedia(d.media.value, ArgAt(args, 1).s)
    ensures r == Logged(MissingPseudoSection) <==>
              mode == Development && ArgAt(args, 0) != Null && KnownRule(d, ArgAt(args, 0))
              && PseudoVariant(ArgAt(args, 1)) && d.pseudo.None?
    ensures r == Logged(UnknownPseudoKey) <==>
              mode == Development && ArgAt(args, 0) != Null && KnownRule(d, ArgAt(args, 0))
              && PseudoVariant(ArgAt(args, 1)) && d.pseudo.Some? && ArgAt(args, 1).s !in d.pseudo.value
  {
    var rule := ArgAt(args, 0);
    var arg := ArgAt(args, 1);
    if rule == Null then NullClass
    else if mode == Development && Check(d, rule, arg).Some? then Logged(Check(d, rule, arg).value)
    else ClassName(RenderClassName([Str(d.name)] + args))
  }

  // ---------------------------------------------------------------------
  // Consequences of the code as written

  /** A valid call with only a rule key renders `name--key`, each part stripped. */
  lemma GetterBaseClass(mode: Mode, d: Definition, k: string)
    requires KnownRule(d, Str(k))
    ensures StyleGetter(mode, d, [Str(k)]) == ClassName(Strip(d.name) + "--" + Strip(k))
  {
    RenderClassNamePair(d.name, k);
    assert [Str(d.name)] + [Str(k)] == [Str(d.name), Str(k)];
  }

  /** A valid call with a rule key and a variant renders `name--key--variant`, each part stripped. */
  lemma GetterVariantClass(mode: Mode, d: Definition, k: string, v: string)
    requires ValidCall(d, [Str(k), Str(v)])
    ensures StyleGetter(mode, d, [Str(k), Str(v)]) == ClassName(Strip(d.name) + "--" + Strip(k) + "--" + Strip(v))
  {
    RenderClassNameTriple(d.name, k, v);
    assert [Str(d.name)] + [Str(k), Str(v)] == [Str(d.name), Str(k), Str(v)];
  }

  /** On a valid call the mode makes no difference. */
  lemma GetterModeIrrelevantWhenValid(d: Definition, args: seq<JsValue>)
    requires ValidCall(d, args)
    ensures StyleGetter(Production, d, args) == StyleGetter(Development, d, args)
  {
  }

  /** Only the first two arguments are validated; arguments after them never change the verdict. */
  lemma GetterChecksTwoArgs(mode: Mode, d: Definition, args: seq<JsValue>, more: seq<JsValue>)
    requires |args| >= 2
    ensures StyleGetter(mode, d, args + more).ClassName? <==> StyleGetter(mode, d, args).ClassName?
  {
    assert ArgAt(args + more, 0) == ArgAt(args, 0);
    assert ArgAt(args + more, 1) == ArgAt(args, 1);
  }

  /** A known rule with both variants in `args[1..]`: only `args[1]` is checked, all are rendered. */
  lemma GetterRendersUncheckedTail(d: Definition, k: string, p: string, m: string)
    requires KnownRule(d, Str(k))
    requires d.pseudo.Some? && p in d.pseudo.value && StartsWith(p, ':')
    ensures StyleGetter(Development, d, [Str(k), Str(p), Str(m)])
         == ClassName(Strip(d.name) + "--" + Strip(k) + "--" + Strip(p) + "--" + Strip(m))
  {
    var args := [Str(k), Str(p), Str(m)];
    assert ValidCall(d, args);
    RenderClassNameTriple(k, p, m);
    PresentKeepsStrings(args, k);
    RenderClassNameCons(d.name, args);
    var w, x, y, z := Strip(d.name), Strip(k), Strip(p), Strip(m);
    assert RenderClassName([Str(d.name)] + args) == w + "--" + (x + "--" + y + "--" + z);
    var v, t := w + "--", x + "--" + y;
    AppendAssoc(v, t + "--", z);
    AppendAssoc(v, t, "--");
    AppendAssoc(v, x + "--", y);
    AppendAssoc(v, x, "--");
  }

  /** An empty-string variant is falsy, so it is not checked, but it is rendered: a trailing `--`. */
  lemma GetterEmptyVariantKept(d: Definition, k: string)
    requires KnownRule(d, Str(k))
    ensures StyleGetter(Development, d, [Str(k), Str("")]) == ClassName(Strip(d.name) + "--" + Strip(k) + "--")
  {
    assert [Str(d.name)] + [Str(k), Str("")] == [Str(d.name), Str(k), Str("")];
    RenderClassNameKeepsEmpty(d.name, k);
  }

  /** A variant starting with neither `@` nor `:` is never checked and is rendered as it is, stripped. */
  lemma GetterUnprefixedVariantUnchecked(d: Definition, k: string, v: string)
    requires KnownRule(d, Str(k))
    requires !StartsWith(v, '@') && !StartsWith(v, ':')
    ensures StyleGetter(Development, d, [Str(k), Str(v)]) == ClassName(Strip(d.name) + "--" + Strip(k) + "--" + Strip(v))
  {
    assert [Str(d.name)] + [Str(k), Str(v)] == [Str(d.name), Str(k), Str(v)];
    RenderClassNameTriple(d.name, k, v);
  }

  /** Only `null` short-circuits: a call without arguments reads the rule as `undefined`. */
  lemma GetterUndefinedRule(d: Definition)
    ensures StyleGetter(Development, d, []) == Logged(UnknownRule)
    ensures StyleGetter(Production, d, []) == ClassName(Strip(d.name))
  {
    assert [Str(d.name)] + [] == [Str(d.name)];
    RenderClassNameSingle(d.name);
  }
}
