/**
 * The configuration of the repository's test, recast in the
 * `{name, rules, media, pseudo}` shape, with the getter-map key and the
 * class names the test expects.
 */
module Scenario {
  import opened Config
  import opened Text
  import opened Folds
  import opened Tokens
  import opened CssCompiler
  import opened Getter
  import opened Stylesheet

  function BackgroundColor(): Definition {
    Definition(
      "background-color",
      [Rule("red", Some("#ff4b5b")), Rule("green", Some("#00d4a8")), Rule("blue", Some("#4996f2"))],
      Some([MediaQuery("@narrow", "(min-width:20rem)"), MediaQuery("@wide", "(min-width:40rem)")]),
      Some([":hover", "::placeholder"]))
  }

  function Sheet(): map<string, StyleFn> {
    GenerateStylesheet([BackgroundColor()])
  }

  /** A hyphenated name turns into the accessor key the test uses. */
  lemma ScenarioKey()
    ensures CamelCase("background-color") == "backgroundColor"
  {
    CamelCasePlainPrefix("background", "-color");
    assert "background" + "-color" == "background-color";
    CamelCasePlainPrefix("olor", "");
    assert "olor" + "" == "olor";
    assert "-color"[2..] == "olor";
    assert "background" + (['C'] + "olor") == "backgroundColor";
  }

  lemma ScenarioPaddingKey()
    ensures CamelCase("padding-top") == "paddingTop"
  {
    CamelCasePlainPrefix("padding", "-top");
    assert "padding" + "-top" == "padding-top";
    CamelCasePlainPrefix("op", "");
    assert "op" + "" == "op";
    assert "-top"[2..] == "op";
    assert "padding" + (['T'] + "op") == "paddingTop";
  }

  /** The map holds the definition's getter under `backgroundColor`. */
  lemma ScenarioSheet()
    ensures "backgroundColor" in Sheet()
    ensures Sheet()["backgroundColor"] == GetterOf(BackgroundColor())
  {
    ScenarioKey();
    StylesheetLastWins([BackgroundColor()], 0);
  }

  /** `getters.backgroundColor("red")` is `"background-color--red"`. */
  lemma ScenarioBaseCall()
    ensures "backgroundColor" in Sheet()
    ensures Sheet()["backgroundColor"](Development, [Str("red")]) == ClassName("background-color--red")
  {
    var d := BackgroundColor();
    ScenarioSheet();
    ScenarioNames();
    ScenarioClassNames();
    assert d.rules[0].key == "red";
    GetterBaseClass(Development, d, "red");
  }

  /** `getters.backgroundColor("red", "@narrow")` is `"background-color--red--narrow"`. */
  lemma ScenarioMediaCall()
    ensures "backgroundColor" in Sheet()
    ensures Sheet()["backgroundColor"](Development, [Str("red"), Str("@narrow")]) == ClassName("background-color--red--narrow")
  {
    var d := BackgroundColor();
    ScenarioSheet();
    ScenarioStripMedia();
    assert d.rules[0].key == "red";
    ScenarioNames();
    ScenarioClassNames();
    assert d.media.value[0].mediaKey == "@narrow";
    assert ValidCall(d, [Str("red"), Str("@narrow")]);
    GetterVariantClass(Development, d, "red", "@narrow");
  }

  /** `getters.backgroundColor("red", ":hover")` is `"background-color--red--hover"`. */
  lemma ScenarioPseudoCall()
    ensures "backgroundColor" in Sheet()
    ensures Sheet()["backgroundColor"](Development, [Str("red"), Str(":hover")]) == ClassName("background-color--red--hover")
  {
    var d := BackgroundColor();
    ScenarioSheet();
    ScenarioStripPseudo();
    assert d.rules[0].key == "red";
    ScenarioNames();
    ScenarioClassNames();
    assert d.pseudo.value[0] == ":hover";
    assert ValidCall(d, [Str("red"), Str(":hover")]);
    GetterVariantClass(Development, d, "red", ":hover");
  }

  /** `getters.backgroundColor(null)` is `null`. */
  lemma ScenarioNullCall()
    ensures "backgroundColor" in Sheet()
    ensures Sheet()["backgroundColor"](Development, [Null]) == NullClass
  {
    ScenarioSheet();
  }

  /** `strip` deletes the leading `:`, `::` or `@` of the test's variant tokens. */
  lemma StripPrefixed(marks: string, word: string)
    requires marks == ":" || marks == "::" || marks == "@"
    requires NoReserved(word)
    ensures Strip(marks + word) == word
  {
    StripConcat(marks, word);
    StripChar(':');
    StripChar('@');
    if marks == "::" {
      StripConcat(":", ":");
      assert ":" + ":" == "::";
    }
  }

  lemma ScenarioStripPseudo()
    ensures Strip(":hover") == "hover"
  {
    StripPrefixed(":", "hover");
    assert ":" + "hover" == ":hover";
  }

  lemma ScenarioStripMedia()
    ensures Strip("@narrow") == "narrow"
  {
    StripPrefixed("@", "narrow");
    assert "@" + "narrow" == "@narrow";
  }

  // ---------------------------------------------------------------------
  // The CSS text the test expects

  /** The scenario's rules give one block each, in rule order. */
  lemma ScenarioRuleOrder(v: Variant)
    ensures Blocks("background-color", v, BackgroundColor().rules)
         == RuleBlock("background-color", v, Rule("red", Some("#ff4b5b")))
          + RuleBlock("background-color", v, Rule("green", Some("#00d4a8")))
          + RuleBlock("background-color", v, Rule("blue", Some("#4996f2")))
  {
    var rules := BackgroundColor().rules;
    ConcatMapTriple((rule: Rule) => RuleBlock("background-color", v, rule), rules[0], rules[1], rules[2]);
    assert rules == [rules[0], rules[1], rules[2]];
  }

  lemma ScenarioRedBlock(v: Variant)
    ensures RuleBlock("background-color", v, Rule("red", Some("#ff4b5b")))
         == ".background-color--red" + Suffix(v) + "{background-color:#ff4b5b}"
  {
    RuleBlockParts("background-color", v, "red", "#ff4b5b", ".background-color--red", "{background-color:#ff4b5b}");
  }

  lemma ScenarioGreenBlock(v: Variant)
    ensures RuleBlock("background-color", v, Rule("green", Some("#00d4a8")))
         == ".background-color--green" + Suffix(v) + "{background-color:#00d4a8}"
  {
    RuleBlockParts("background-color", v, "green", "#00d4a8", ".background-color--green", "{background-color:#00d4a8}");
  }

  lemma ScenarioBlueBlock(v: Variant)
    ensures RuleBlock("background-color", v, Rule("blue", Some("#4996f2")))
         == ".background-color--blue" + Suffix(v) + "{background-color:#4996f2}"
  {
    RuleBlockParts("background-color", v, "blue", "#4996f2", ".background-color--blue", "{background-color:#4996f2}");
  }

  /** The three blocks of the scenario's rules under one variant. */
  lemma ScenarioBlocks(v: Variant)
    ensures Blocks("background-color", v, BackgroundColor().rules)
         == ".background-color--red" + Suffix(v) + "{background-color:#ff4b5b}"
          + (".background-color--green" + Suffix(v) + "{background-color:#00d4a8}")
          + (".background-color--blue" + Suffix(v) + "{background-color:#4996f2}")
  {
    ScenarioRuleOrder(v);
    ScenarioRedBlock(v);
    ScenarioGreenBlock(v);
    ScenarioBlueBlock(v);
  }

  lemma ScenarioHoverSuffix()
    ensures Suffix(Pseudo(":hover")) == "--hover:hover"
  {
    ScenarioStripPseudo();
  }

  lemma ScenarioStripPlaceholder()
    ensures Strip("::placeholder") == "placeholder"
  {
    StripPrefixed("::", "placeholder");
    assert "::" + "placeholder" == "::placeholder";
  }

  lemma ScenarioPlaceholderSuffix()
    ensures Suffix(Pseudo("::placeholder")) == "--placeholder::placeholder"
  {
    ScenarioStripPlaceholder();
    ScenarioPlaceholderText();
  }

  lemma ScenarioNarrowSuffix()
    ensures Suffix(Media("@narrow")) == "--narrow"
  {
    ScenarioStripMedia();
  }

  lemma ScenarioWideSuffix()
    ensures Suffix(Media("@wide")) == "--wide"
  {
    StripPrefixed("@", "wide");
    assert "@" + "wide" == "@wide";
  }

  /**
   * `generateCSS(config)` without options is the text the repository's test
   * expects, line by line: each selector is split into `.name--key`, the
   * variant suffix and the declaration body.
   */
  lemma ScenarioCss()
    ensures GenerateCss([BackgroundColor()], Options(None))
         == (".background-color--red" + "" + "{background-color:#ff4b5b}"
              + (".background-color--green" + "" + "{background-color:#00d4a8}")
              + (".background-color--blue" + "" + "{background-color:#4996f2}"))
          + (".background-color--red" + "--hover:hover" + "{background-color:#ff4b5b}"
              + (".background-color--green" + "--hover:hover" + "{background-color:#00d4a8}")
              + (".background-color--blue" + "--hover:hover" + "{background-color:#4996f2}"))
          + (".background-color--red" + "--placeholder::placeholder" + "{background-color:#ff4b5b}"
              + (".background-color--green" + "--placeholder::placeholder" + "{background-color:#00d4a8}")
              + (".background-color--blue" + "--placeholder::placeholder" + "{background-color:#4996f2}"))
          + ("@media (min-width:20rem){"
              + (".background-color--red" + "--narrow" + "{background-color:#ff4b5b}"
                  + (".background-color--green" + "--narrow" + "{background-color:#00d4a8}")
                  + (".background-color--blue" + "--narrow" + "{background-color:#4996f2}"))
              + "}")
          + ("@media (min-width:40rem){"
              + (".background-color--red" + "--wide" + "{background-color:#ff4b5b}"
                  + (".background-color--green" + "--wide" + "{background-color:#00d4a8}")
                  + (".background-color--blue" + "--wide" + "{background-color:#4996f2}"))
              + "}")
  {
    var d := BackgroundColor();
    var n, rules := d.name, d.rules;
    var narrow, wide := d.media.value[0], d.media.value[1];
    GenerateCssLayout([d], Options(None));
    ConcatMapSingle(DefinitionLayout, d);
    assert d.pseudo.value == [":hover", "::placeholder"];
    ConcatMapPair((p: string) => Blocks(n, Pseudo(p), rules), ":hover", "::placeholder");
    assert d.media.value == [narrow, wide];
    ConcatMapPair((mq: MediaQuery) => MediaLayout(n, rules, mq), narrow, wide);
    var base := Blocks(n, Vanilla, rules);
    var hover := Blocks(n, Pseudo(":hover"), rules);
    var placeholder := Blocks(n, Pseudo("::placeholder"), rules);
    var m1 := MediaLayout(n, rules, narrow);
    var m2 := MediaLayout(n, rules, wide);
    assert GenerateCss([d], Options(None)) == "" + (base + (hover + placeholder) + (m1 + m2));
    AppendAssoc(base, hover, placeholder);
    AppendAssoc(base + hover + placeholder, m1, m2);
    assert GenerateCss([d], Options(None)) == base + hover + placeholder + m1 + m2;
    ScenarioBlocks(Vanilla);
    ScenarioBlocks(Pseudo(":hover"));
    ScenarioHoverSuffix();
    ScenarioBlocks(Pseudo("::placeholder"));
    ScenarioPlaceholderSuffix();
    ScenarioBlocks(Media("@narrow"));
    ScenarioNarrowSuffix();
    ScenarioBlocks(Media("@wide"));
    ScenarioWideSuffix();
    ScenarioMediaHeads();
  }

  // ---------------------------------------------------------------------
  // Proof helpers: facts about string literals, each kept in a lemma of its
  // own because the solver handles literal concatenation poorly in context

  /** The test's definition name and rule key carry no `@` or `:`, so `strip` leaves them alone. */
  lemma ScenarioNames()
    ensures NoReserved("background-color") && NoReserved("red")
  {
  }

  /** The class names of the test, assembled from their parts. */
  lemma ScenarioClassNames()
    ensures "background-color" + "--" + "red" == "background-color--red"
    ensures "background-color" + "--" + "red" + "--" + "narrow" == "background-color--red--narrow"
    ensures "background-color" + "--" + "red" + "--" + "hover" == "background-color--red--hover"
  {
  }

  lemma ScenarioPlaceholderText()
    ensures "--" + "placeholder" + "::placeholder" == "--placeholder::placeholder"
  {
  }

  /** The two `@media` openings of the scenario. */
  lemma ScenarioMediaHeads()
    ensures "@media " + "(min-width:20rem)" + "{" == "@media (min-width:20rem){"
    ensures "@media " + "(min-width:40rem)" + "{" == "@media (min-width:40rem){"
  {
  }
}
