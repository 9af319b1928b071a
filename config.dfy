/**
 * The configuration that both compilers read: an ordered sequence of
 * definitions `{name, rules, media, pseudo}` and the `options` object of
 * `generateCSS`, together with the few JavaScript values the getters accept.
 */
module Config {

  datatype Option<T> = None | Some(value: T)

  /** A JavaScript argument where the source expects a string: `null`, `undefined` or a string. */
  datatype JsValue = Null | Undefined | Str(s: string)

  /** One `[key, value]` pair of `rules`; `value` may be missing (`["bold"]`). */
  datatype Rule = Rule(key: string, value: Option<string>)

  /** One `[mediaKey, query]` pair of `media`, e.g. `["@narrow", "(min-width:20rem)"]`. */
  datatype MediaQuery = MediaQuery(mediaKey: string, query: string)

  /** One styleable declaration; `media` and `pseudo` may be absent (`undefined`). */
  datatype Definition = Definition(
    name: string,
    rules: seq<Rule>,
    media: Option<seq<MediaQuery>>,
    pseudo: Option<seq<string>>)

  /** The `options` argument of `generateCSS`; a missing `options` is `Options(None)`. */
  datatype Options = Options(globals: Option<string>)

  /** JavaScript truthiness of a string-or-nil argument: only a non-empty string is truthy. */
  predicate Truthy(v: JsValue) {
    v.Str? && v.s != ""
  }

  predicate StartsWith(s: string, c: char) {
    |s| > 0 && s[0] == c
  }

  /** `rule[1] || key`: the value written into the declaration body. */
  function RuleValue(rule: Rule): (v: string)
    ensures rule.value.Some? && rule.value.value != "" ==> v == rule.value.value
    ensures rule.value == None || rule.value == Some("") ==> v == rule.key
  {
    match rule.value
    case Some(v) => if v != "" then v else rule.key
    case None => rule.key
  }

  /** `x || []`: an absent `pseudo` or `media` section reads as empty. */
  function OrEmpty<T>(o: Option<seq<T>>): (s: seq<T>)
    ensures o.Some? ==> s == o.value
    ensures o.None? ==> s == []
  {
    match o
    case Some(xs) => xs
    case None => []
  }
}
