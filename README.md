# funcss in Dafny

A model of funcss, a small "functional CSS" compiler. One configuration, a
sequence of definitions `{name, rules, media, pseudo}`, is compiled into two
artifacts that must agree with each other:

- the CSS text from `generateCSS`. It holds an optional `globals` prefix, then,
  for each definition in order, one `.name--key{name:value}` block per rule,
  one block per (pseudo token, rule) pair and one `@media query{...}` block
  per media entry;
- the getter map from `generateStylesheet`. Each camel-cased definition name is
  bound to a getter, `styleGetter(def)`. The getter validates its arguments
  and returns a class name rendered by `renderClassName`.

The whole of `source/index.js` is pure string logic apart from the DOM
injection, so every operation is a Dafny function and every property a lemma:

- `config.dfy` (module `Config`): the configuration datatypes. It also holds
  the JavaScript values a getter accepts (`null`, `undefined` or a string) and
  `rule[1] || key`.
- `text.dfy` (module `Text`): substring occurrence, the relation in which
  the CSS text is inspected.
- `folds.dfy` (module `Folds`): `Ramda.reduce` as a left fold and `Ramda.find`.
  It also defines the reference concatenation `ConcatMap` and proves that a
  string-appending reduce equals it.
- `tokens.dfy` (module `Tokens`): `strip`, `renderClassName`, and `camelCase`
  with its inverse `KebabCase`.
- `css_compiler.dfy` (module `CssCompiler`): the reducers as the source
  folds them, a reference layout of the output, and proofs that the two are
  equal and that every block is emitted.
- `getter.dfy` (module `Getter`): `styleGetter`, with the mode as a parameter
  and `console.error` as an error result.
- `stylesheet.dfy` (module `Stylesheet`): `generateStylesheet` and `generate`.
- `coupling.dfy` (module `Coupling`): the class name a getter returns,
  prefixed with `.`, is a selector of the generated CSS.
- `scenario.dfy` (module `Scenario`): the repository test's configuration,
  its expected CSS text and its expected class names.

The mode is the value of `process.env.NODE_ENV` when a getter is called.
`Production` stands for `"production"`; `Development` stands for any other
value. A getter returns `null` (`NullClass`), a class name (`ClassName`), or the
`undefined` that `console.error` returns (`Logged(e)`). The variant `e` says
which of the five reports was made: unknown rule, missing media section,
unknown media key, missing pseudo section, unknown pseudo key.

Where the code and its documented intent differ, the model follows the code:

- Only `rule === null` short-circuits. A getter called with no arguments
  reads the rule as `undefined`. It reports an unknown rule in development and
  renders the bare definition name in production (`Getter.GetterUndefinedRule`).
- Only `args[1]` is validated, but every argument is rendered
  (`Getter.GetterChecksTwoArgs`, `Getter.GetterRendersUncheckedTail`).
- `renderClassName` drops only `null` and `undefined`. An empty-string
  variant is skipped by the `if (arg)` check, but it is rendered, which leaves a
  trailing `--` (`Getter.GetterEmptyVariantKept`).
- A variant starting with neither `@` nor `:` is never checked
  (`Getter.GetterUnprefixedVariantUnchecked`).
- The CSS selectors do not strip the definition name or the rule key, but
  `renderClassName` does. The coupling lemmas therefore require both to be
  free of `@` and `:`.
- `camelCase` upper-cases only a lowercase `a`-`z` after `-`. Any other `-`
  is kept.
- The repository's test uses an older configuration shape and imports a
  `generateGetters` export that `source/index.js` does not have. The scenario
  recasts the test's configuration in the `{name, rules, media, pseudo}` shape
  and checks the test's expected strings against the model.

## Model

| member | source | states |
|---|---|---|
| `Config.RuleValue` | source/index.js:29-30 | the declaration value is the rule's value when it is a non-empty string, and the rule key otherwise |
| `Config.OrEmpty` | source/index.js:84-94 | an absent `pseudo` or `media` section folds as the empty sequence, and a present one as itself |
| `Folds.Find` | source/index.js:152 | `Ramda.find` yields an element exactly when one satisfies the predicate, and then the first such element |
| `Folds.ReduceAppends` | source/index.js:28-35 | a reduce whose reducer only appends `g(x)` to its accumulator yields the accumulator followed by the in-order concatenation of `g` over the list |
| `Tokens.Strip` | source/index.js:10 | the result has no `@` or `:`, is no longer than the input, and equals the input when the input has neither |
| `Tokens.StripKeepsOthers` | source/index.js:10 | a character occurs in `strip(s)` if and only if it occurs in `s` and is neither `@` nor `:` |
| `Tokens.StripConcat` | source/index.js:10 | `strip` distributes over concatenation, so it works character by character and keeps the order |
| `Tokens.StripChar` | source/index.js:10 | a single character is deleted exactly when it is `@` or `:` |
| `Tokens.StripIdempotent` | source/index.js:10 | `strip(strip(s)) == strip(s)` |
| `Tokens.JoinNoReserved` | source/index.js:18 | joining parts free of `@` and `:` with a separator free of them yields a string free of them |
| `Tokens.PresentKeepsStrings` | source/index.js:20 | `reject(isNil)` keeps a string exactly when it is one of the tokens, the empty string included |
| `Tokens.PresentConcat` | source/index.js:20 | `reject(isNil)` distributes over concatenation, so the order of the survivors is kept |
| `Tokens.StripAll` | source/index.js:19 | `map(strip)` keeps the length and strips each element in place |
| `Tokens.RenderClassName` | source/index.js:17-21 | a rendered class name never contains `@` or `:` |
| `Tokens.RenderClassNameIgnoresNil` | source/index.js:14-21 | inserting `null` or `undefined` anywhere in the tokens does not change the class name |
| `Tokens.RenderClassNameSingle` | source/index.js:17-21 | one string token renders as that token, stripped |
| `Tokens.RenderClassNameCons` | source/index.js:17-21 | a leading string token is stripped and joined to the rendering of the rest with `--`, unless nothing else survives |
| `Tokens.RenderClassNamePair` | source/index.js:17-21 | two string tokens render as `strip(a)--strip(b)` |
| `Tokens.RenderClassNameTriple` | source/index.js:17-21 | three string tokens render as `strip(a)--strip(b)--strip(c)` |
| `Tokens.RenderClassNameKeepsEmpty` | source/index.js:20 | an empty-string token is not dropped and leaves a trailing `--` |
| `Tokens.CamelCaseNoMatchLeft` | source/index.js:135-136 | after the global replacement no `-` is followed by a lowercase letter |
| `Tokens.CamelCaseFixesUnmatched` | source/index.js:135-136 | a string with no `-` before a lowercase letter is unchanged |
| `Tokens.CamelCasePlainPrefix` | source/index.js:135-136 | a prefix without `-` passes through unchanged, so characters other than the matched `-x` pairs are kept in place |
| `Tokens.CamelCaseIdempotent` | source/index.js:135-136 | applying `camelCase` twice is the same as applying it once |
| `Tokens.KebabCaseUndoesCamelCase` | source/index.js:135-136 | on names without upper-case letters, turning each upper-case letter back into `-` and its lower case recovers the name, so nothing but the `-x` to `X` rewrite happens |
| `Tokens.CamelCaseUndoesKebabCase` | source/index.js:135-136 | on strings with no `-x` left, `camelCase` inverts the kebab-casing, so the two are inverse bijections |
| `Tokens.CamelCaseInjective` | source/index.js:135-136 | two names without upper-case letters get the same map key only if they are equal |
| `CssCompiler.RuleBlockParts` | source/index.js:32 | a rule block is `.name--key`, then the variant's selector suffix, then `{name:value}` |
| `CssCompiler.RulesCssLayout` | source/index.js:28-35 | folding `rulesReducer` over the rules emits one block per rule, in rule order |
| `CssCompiler.PseudoCssLayout` | source/index.js:42-51 | the pseudo fold emits, for each pseudo token in order, one block per rule with selector `name--key--strip(p)` followed by the raw `p` |
| `CssCompiler.MediaBlockLayout` | source/index.js:58-69 | one media entry emits `@media query{...}` wrapping one block per rule, with selector `name--key--strip(mediaKey)` and no raw suffix |
| `CssCompiler.MediaCssLayout` | source/index.js:58-69 | the media fold emits one `@media` block per media entry, in order |
| `CssCompiler.DefinitionReducerLayout` | source/index.js:76-97 | `definitionReducer` appends the base blocks, then the pseudo blocks, then the media blocks; a missing section contributes nothing |
| `CssCompiler.GenerateCssLayout` | source/index.js:106-114 | `generateCSS` is `globals` (or `""`) followed by each definition's CSS in definition order |
| `CssCompiler.DefinitionEmitted` | source/index.js:106-114 | every definition's CSS occurs in the output |
| `CssCompiler.BlockInBlocks` | source/index.js:28-35 | every rule's block occurs among the blocks of its rules |
| `CssCompiler.BaseBlockEmitted` | source/index.js:78-82 | `.name--key{name:value}` is emitted for every rule of every definition |
| `CssCompiler.PseudoBlockEmitted` | source/index.js:42-51 | `.name--key--strip(p)p{name:value}` is emitted for every pseudo token and every rule |
| `CssCompiler.MediaBlockEmitted` | source/index.js:58-69 | every media entry's `@media` block is emitted and holds `.name--key--strip(mediaKey){name:value}` for every rule |
| `Getter.ArgAt` | source/index.js:144 | destructuring reads a present position as its argument and a missing one as `undefined` |
| `Getter.StyleGetter` | source/index.js:143-182 | a `null` rule, and only that, yields `null`. A class name is always `renderClassName([name, ...args])`. In production every other call yields a class name. In development a class name is returned exactly when the rule key is known and a media or pseudo `args[1]` is declared, and each of the five errors arises exactly under its own condition, in source order |
| `Getter.GetterBaseClass` | source/index.js:181 | a known rule key alone renders `strip(name)--strip(key)` |
| `Getter.GetterVariantClass` | source/index.js:156-181 | a valid rule key and variant render `strip(name)--strip(key)--strip(variant)` |
| `Getter.GetterModeIrrelevantWhenValid` | source/index.js:151-181 | on a call that passes the checks, production and development agree |
| `Getter.GetterChecksTwoArgs` | source/index.js:144 | arguments after the second never change whether a class name is returned |
| `Getter.GetterRendersUncheckedTail` | source/index.js:156-181 | with a valid pseudo variant, a third argument is not checked but is rendered as a fourth segment |
| `Getter.GetterEmptyVariantKept` | source/index.js:156-181 | an empty-string variant passes unchecked and renders `name--key--` |
| `Getter.GetterUnprefixedVariantUnchecked` | source/index.js:156-176 | a variant starting with neither `@` nor `:` is not checked and is rendered stripped |
| `Getter.GetterUndefinedRule` | source/index.js:149-153 | a call with no arguments is not short-circuited: development reports an unknown rule, and production renders the bare stripped name |
| `Stylesheet.Generate` | source/index.js:198-201 | `generate` pairs the CSS layout with the getter map of the same configuration |
| `Stylesheet.StylesheetKeys` | source/index.js:189-191 | the map's keys are exactly the camel-cased definition names |
| `Stylesheet.StylesheetLastWins` | source/index.js:189-191 | a definition that no later definition shadows owns its key's getter, so the last write wins |
| `Stylesheet.StylesheetGetterOrigin` | source/index.js:189-191 | every getter in the map is the getter of a definition whose camel-cased name is its key |
| `Coupling.BaseClassEmitted` | source/index.js:181 | a development class name for `(key)`, `(key, null)` or `(key, undefined)` is `name--key`, and `.name--key` heads an emitted base block of a rule with that key (line 79) |
| `Coupling.PseudoClassEmitted` | source/index.js:181 | a development class name for `(key, ":p")` is `name--key--strip(p)`, and followed by the raw `p` it heads an emitted pseudo block (line 45) |
| `Coupling.MediaClassEmitted` | source/index.js:181 | a development class name for `(key, "@m")` is `name--key--strip(m)`; the definition's `@m` media block is emitted and holds a block headed by that selector (lines 61, 66) |
| `Coupling.GeneratedClassesExist` | source/index.js:198-201 | for every key of the map `generate` returns, a development class name for a rule key with at most one nil, media or pseudo variant, prefixed with `.` (and followed by the raw pseudo token), heads a block of the CSS that `generate` returns |
| `Scenario.ScenarioCss` | source/index.test.js:24-53 | `generateCSS` of the test configuration is exactly the test's expected text |
| `Scenario.ScenarioKey` | source/index.test.js:57 | `background-color` becomes the map key `backgroundColor` |
| `Scenario.ScenarioPaddingKey` | source/index.js:135-136 | `padding-top` becomes `paddingTop` |
| `Scenario.ScenarioSheet` | source/index.js:189-191 | the test's map binds `backgroundColor` to the definition's getter |
| `Scenario.ScenarioBaseCall` | source/index.test.js:57 | `backgroundColor("red")` is `background-color--red` |
| `Scenario.ScenarioMediaCall` | source/index.test.js:58 | `backgroundColor("red", "@narrow")` is `background-color--red--narrow` |
| `Scenario.ScenarioPseudoCall` | source/index.test.js:59 | `backgroundColor("red", ":hover")` is `background-color--red--hover` |
| `Scenario.ScenarioNullCall` | source/index.js:149 | `backgroundColor(null)` is `null` |

## Left out

- `inject` and the default export that calls it (source/index.js:122-128,
  208-212): they append a `<style>` element to the DOM, which is I/O.
- Reading `process.env.NODE_ENV`: the mode is an explicit parameter of every
  getter call.
- The text of the `console.error` messages and the logging side effect: each
  report is one `GetterError` variant carried in the result.
- Arguments that are neither `null`, `undefined` nor strings, such as a number,
  on which `arg.startsWith` would throw. Rule values are strings or missing.
- Ramda itself: `replace`, `reject`, `map`, `join`, `reduce`, `find`,
  `propEq` and `assoc` are written out directly over sequences and maps.
  `Ramda.propEq(0, rule)` (source/index.js:152) is read with the argument
  order of Ramda before 0.29: "element 0 equals `rule`". From 0.29 on, the
  same call tests `r[rule] === 0`, and every development call would report an
  unknown rule. The model assumes the older Ramda.
- JavaScript strings are UTF-16 code-unit sequences. The model uses Dafny
  `char` sequences, with no encoding concerns.
- Coupling.GeneratedClassesExist: covers development-mode calls only, because
  in production unknown keys render class names with no block. Within
  development mode it covers a rule key with at most one variant, because with
  more variants only the first is checked. Three further exclusions:
  - an empty-string variant, which renders `name--key--` and has no block;
  - a variant starting with neither `@` nor `:`, which is never checked and has
    no block;
  - a rule key containing `@` or `:`, which the class name strips and the CSS
    selector does not.
- Tokens.CamelCase: its own contract states only lengths. What it does is
  stated by the lemmas about it and its inverse `KebabCase`.
