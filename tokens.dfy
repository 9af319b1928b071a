/**
 * The token helpers of the compiler: `strip`, which deletes the reserved
 * characters `@` and `:`, `renderClassName`, which joins the non-nil tokens
 * with `--`, and `camelCase`, which turns a declaration name into the key of
 * the getter map.
 */
module Tokens {
  import opened Config
  import opened Text

  predicate Reserved(c: char) {
    c == '@' || c == ':'
  }

  /** A class name never contains the characters that carry media and pseudo syntax. */
  predicate NoReserved(s: string) {
    '@' !in s && ':' !in s
  }

  /** `strip`: the characters of `s` other than `@` and `:`, in their order. */
  function Strip(s: string): (r: string)
    ensures NoReserved(r)
    ensures |r| <= |s|
    ensures NoReserved(s) ==> r == s
    decreases |s|
  {
    if s == [] then []
    else
      var rest := Strip(s[1..]);
      assert s == [s[0]] + s[1..];
      if Reserved(s[0]) then rest else [s[0]] + rest
  }

  /** `strip` keeps exactly the characters other than `@` and `:`. */
  lemma {:induction false} StripKeepsOthers(s: string, c: char)
    ensures c in Strip(s) <==> c in s && !Reserved(c)
    decreases |s|
  {
    if s != [] {
      StripKeepsOthers(s[1..], c);
      assert s == [s[0]] + s[1..];
    }
  }

  /** `strip` works character by character: it distributes over concatenation. */
  lemma {:induction false} StripConcat(a: string, b: string)
    ensures Strip(a + b) == Strip(a) + Strip(b)
    decreases |a|
  {
    if a == [] {
      assert a + b == b;
    } else {
      assert (a + b)[0] == a[0];
      assert (a + b)[1..] == a[1..] + b;
      StripConcat(a[1..], b);
    }
  }

  /** What `strip` does to one character: deletes it exactly when it is `@` or `:`. */
  lemma StripChar(c: char)
    ensures Strip([c]) == if Reserved(c) then [] else [c]
  {
    assert [c][1..] == [];
  }

  lemma StripIdempotent(s: string)
    ensures Strip(Strip(s)) == Strip(s)
  {
  }

  /** `Array.prototype.join`: the parts with `sep` between neighbours. */
  function Join(parts: seq<string>, sep: string): string
    decreases |parts|
  {
    if parts == [] then ""
    else if |parts| == 1 then parts[0]
    else parts[0] + sep + Join(parts[1..], sep)
  }

  /** Joining introduces no characters beyond those of the parts and the separator. */
  lemma {:induction false} JoinNoReserved(parts: seq<string>, sep: string)
    requires forall i :: 0 <= i < |parts| ==> NoReserved(parts[i])
    requires NoReserved(sep)
    ensures NoReserved(Join(parts, sep))
    decreases |parts|
  {
    if |parts| > 1 {
      assert forall i :: 0 <= i < |parts| - 1 ==> parts[1..][i] == parts[i + 1];
      JoinNoReserved(parts[1..], sep);
    }
  }

  /** `Ramda.reject(Ramda.isNil)`: the string tokens, dropping `null` and `undefined` but keeping `""`. */
  function Present(tokens: seq<JsValue>): (r: seq<string>)
    ensures |r| <= |tokens|
    decreases |tokens|
  {
    if tokens == [] then []
    else
      var rest := Present(tokens[1..]);
      assert tokens == [tokens[0]] + tokens[1..];
      match tokens[0]
      case Str(s) => [s] + rest
      case _ => rest
  }

  /** `reject(isNil)` keeps exactly the string tokens, the empty string included. */
  lemma {:induction false} PresentKeepsStrings(tokens: seq<JsValue>, s: string)
    ensures s in Present(tokens) <==> Str(s) in tokens
    decreases |tokens|
  {
    if tokens != [] {
      PresentKeepsStrings(tokens[1..], s);
      assert tokens == [tokens[0]] + tokens[1..];
    }
  }

  lemma {:induction false} PresentConcat(a: seq<JsValue>, b: seq<JsValue>)
    ensures Present(a + b) == Present(a) + Present(b)
    decreases |a|
  {
    if a == [] {
      assert a + b == b;
    } else {
      assert (a + b)[0] == a[0];
      assert (a + b)[1..] == a[1..] + b;
      PresentConcat(a[1..], b);
    }
  }

  /** `Ramda.map(strip)`. */
  function StripAll(parts: seq<string>): (r: seq<string>)
    ensures |r| == |parts|
    ensures forall i :: 0 <= i < |parts| ==> r[i] == Strip(parts[i])
  {
    seq(|parts|, i requires 0 <= i < |parts| => Strip(parts[i]))
  }

  /** `renderClassName`: reject nil tokens, strip each survivor, join them with `--`. */
  function RenderClassName(tokens: seq<JsValue>): (r: string)
    ensures NoReserved(r)
  {
    var parts := StripAll(Present(tokens));
    JoinNoReserved(parts, "--");
    Join(parts, "--")
  }

  /** A `null` or `undefined` token anywhere leaves the class name unchanged. */
  lemma RenderClassNameIgnoresNil(a: seq<JsValue>, nil: JsValue, b: seq<JsValue>)
    requires nil == Null || nil == Undefined
    ensures RenderClassName(a + [nil] + b) == RenderClassName(a + b)
  {
    assert Present([nil]) == [] by { assert [nil][1..] == []; }
    PresentConcat(a + [nil], b);
    PresentConcat(a, [nil]);
    PresentConcat(a, b);
    assert Present(a + [nil] + b) == Present(a + b);
  }

  /** A single string token renders as that token, stripped. */
  lemma RenderClassNameSingle(a: string)
    ensures RenderClassName([Str(a)]) == Strip(a)
  {
    assert Present([Str(a)]) == [a] by { assert [Str(a)][1..] == []; }
    assert StripAll([a]) == [Strip(a)];
  }

  /** A leading string token is stripped and joined to the rest with `--`, unless nothing else survives. */
  lemma RenderClassNameCons(a: string, rest: seq<JsValue>)
    ensures RenderClassName([Str(a)] + rest)
         == if Present(rest) == [] then Strip(a) else Strip(a) + "--" + RenderClassName(rest)
  {
    assert Present([Str(a)]) == [a] by { assert [Str(a)][1..] == []; }
    PresentConcat([Str(a)], rest);
    var parts := StripAll([a] + Present(rest));
    assert parts == [Strip(a)] + StripAll(Present(rest));
    assert parts[1..] == StripAll(Present(rest));
  }

  /** Two string tokens: each is stripped, and they are separated by `--`. */
  lemma RenderClassNamePair(a: string, b: string)
    ensures RenderClassName([Str(a), Str(b)]) == Strip(a) + "--" + Strip(b)
  {
    RenderClassNameSingle(b);
    PresentKeepsStrings([Str(b)], b);
    RenderClassNameCons(a, [Str(b)]);
    assert [Str(a)] + [Str(b)] == [Str(a), Str(b)];
  }

  lemma RenderClassNameTriplePrefix(a: string, b: string, c: string)
    ensures RenderClassName([Str(a), Str(b), Str(c)]) == Strip(a) + "--" + RenderClassName([Str(b), Str(c)])
  {
    var rest := [Str(b), Str(c)];
    PresentKeepsStrings(rest, b);
    RenderClassNameCons(a, rest);
    assert [Str(a)] + rest == [Str(a), Str(b), Str(c)];
  }

  /** Three string tokens: each is stripped, neighbours are separated by `--`. */
  lemma RenderClassNameTriple(a: string, b: string, c: string)
    ensures RenderClassName([Str(a), Str(b), Str(c)]) == Strip(a) + "--" + Strip(b) + "--" + Strip(c)
  {
    RenderClassNameTriplePrefix(a, b, c);
    RenderClassNamePair(b, c);
    var x := Strip(a) + "--";
    AppendAssoc(x, Strip(b) + "--", Strip(c));
    AppendAssoc(x, Strip(b), "--");
  }

  /** An empty-string token is not nil: it is kept, and leaves a trailing `--`. */
  lemma RenderClassNameKeepsEmpty(a: string, b: string)
    ensures RenderClassName([Str(a), Str(b), Str("")]) == Strip(a) + "--" + Strip(b) + "--"
  {
    RenderClassNameTriple(a, b, "");
  }

  // ---------------------------------------------------------------------
  // camelCase: `replace(/-([a-z])/g, toUpper)`

  predicate IsLower(c: char) {
    'a' <= c <= 'z'
  }

  predicate IsUpper(c: char) {
    'A' <= c <= 'Z'
  }

  function ToUpper(c: char): (u: char)
    requires IsLower(c)
    ensures IsUpper(u)
  {
    (c as int - 32) as char
  }

  function ToLower(c: char): (l: char)
    requires IsUpper(c)
    ensures IsLower(l)
  {
    (c as int + 32) as char
  }

  /** The regular expression `/-([a-z])/` matches `s` at index `i`. */
  predicate HyphenLowerAt(s: string, i: nat) {
    i + 1 < |s| && s[i] == '-' && IsLower(s[i + 1])
  }

  predicate HasHyphenLower(s: string) {
    exists i: nat :: i < |s| && HyphenLowerAt(s, i)
  }

  predicate NoUpper(s: string) {
    forall i :: 0 <= i < |s| ==> !IsUpper(s[i])
  }

  /**
   * `camelCase`: scanning left to right, each `-` followed by a lowercase
   * `a`-`z` letter is replaced by that letter in upper case; every other
   * character is kept.
   */
  function CamelCase(s: string): (r: string)
    ensures |r| <= |s|
    ensures |s| > 0 ==> |r| > 0
    decreases |s|
  {
    if s == [] then []
    else if HyphenLowerAt(s, 0) then [ToUpper(s[1])] + CamelCase(s[2..])
    else [s[0]] + CamelCase(s[1..])
  }

  /** Reference inverse of `camelCase`: each upper-case letter becomes `-` and its lower case. */
  function KebabCase(s: string): (r: string)
    ensures |r| >= |s|
    decreases |s|
  {
    if s == [] then []
    else if IsUpper(s[0]) then ['-', ToLower(s[0])] + KebabCase(s[1..])
    else [s[0]] + KebabCase(s[1..])
  }

  /** The first character `camelCase` produces: lower case only if it is the input's own first character. */
  lemma CamelCaseHead(s: string)
    requires |s| > 0
    ensures CamelCase(s)[0] == (if HyphenLowerAt(s, 0) then ToUpper(s[1]) else s[0])
  {
  }

  lemma NoHyphenLowerCons(c: char, t: string)
    requires !HasHyphenLower(t)
    requires !(c == '-' && |t| > 0 && IsLower(t[0]))
    ensures !HasHyphenLower([c] + t)
  {
    var s := [c] + t;
    forall i: nat | i < |s|
      ensures !HyphenLowerAt(s, i)
    {
      if i > 0 {
        assert s[i] == t[i - 1] && (i + 1 < |s| ==> s[i + 1] == t[i]);
        assert !HyphenLowerAt(t, i - 1);
      }
    }
  }

  /** After `camelCase` no `-` is followed by a lowercase letter: the global replacement left no match. */
  lemma {:induction false} CamelCaseNoMatchLeft(s: string)
    ensures !HasHyphenLower(CamelCase(s))
    decreases |s|
  {
    if s == [] {
    } else if HyphenLowerAt(s, 0) {
      CamelCaseNoMatchLeft(s[2..]);
      NoHyphenLowerCons(ToUpper(s[1]), CamelCase(s[2..]));
    } else {
      var t := s[1..];
      CamelCaseNoMatchLeft(t);
      if |t| > 0 {
        CamelCaseHead(t);
        if HyphenLowerAt(t, 0) {
          assert !IsLower(ToUpper(t[1]));
        } else {
          assert s[0] == '-' ==> !IsLower(t[0]);
        }
      }
      NoHyphenLowerCons(s[0], CamelCase(t));
    }
  }

  /** A string without any `-x` (x lowercase) is already in camel case. */
  lemma {:induction false} CamelCaseFixesUnmatched(s: string)
    requires !HasHyphenLower(s)
    ensures CamelCase(s) == s
    decreases |s|
  {
    if s != [] {
      assert !HyphenLowerAt(s, 0);
      var t := s[1..];
      assert !HasHyphenLower(t) by {
        forall i: nat | i < |t| ensures !HyphenLowerAt(t, i) {
          assert !HyphenLowerAt(s, i + 1);
        }
      }
      CamelCaseFixesUnmatched(t);
      assert s == [s[0]] + t;
    }
  }

  /** A prefix without `-` passes through `camelCase` untouched. */
  lemma {:induction false} CamelCasePlainPrefix(a: string, b: string)
    requires '-' !in a
    ensures CamelCase(a + b) == a + CamelCase(b)
    decreases |a|
  {
    if a != [] {
      assert (a + b)[0] == a[0] && (a + b)[1..] == a[1..] + b;
      assert a[0] in a;
      assert !HyphenLowerAt(a + b, 0);
      assert '-' !in a[1..] by { assert forall c :: c in a[1..] ==> c in a; }
      CamelCasePlainPrefix(a[1..], b);
      assert CamelCase(a + b) == [a[0]] + CamelCase(a[1..] + b);
      assert a == [a[0]] + a[1..];
      assert [a[0]] + (a[1..] + CamelCase(b)) == ([a[0]] + a[1..]) + CamelCase(b);
    } else {
      assert a + b == b;
    }
  }

  lemma CamelCaseIdempotent(s: string)
    ensures CamelCase(CamelCase(s)) == CamelCase(s)
  {
    CamelCaseNoMatchLeft(s);
    CamelCaseFixesUnmatched(CamelCase(s));
  }

  /** On names without upper-case letters `camelCase` loses nothing: `KebabCase` undoes it. */
  lemma {:induction false} KebabCaseUndoesCamelCase(s: string)
    requires NoUpper(s)
    ensures KebabCase(CamelCase(s)) == s
    decreases |s|
  {
    if s == [] {
    } else if HyphenLowerAt(s, 0) {
      var t := s[2..];
      assert NoUpper(t) by {
        forall i | 0 <= i < |t| ensures !IsUpper(t[i]) { assert t[i] == s[i + 2]; }
      }
      KebabCaseUndoesCamelCase(t);
      var r := [ToUpper(s[1])] + CamelCase(t);
      assert r[1..] == CamelCase(t);
      assert ToLower(ToUpper(s[1])) == s[1];
      assert s == ['-', s[1]] + t;
    } else {
      var t := s[1..];
      assert NoUpper(t) by {
        forall i | 0 <= i < |t| ensures !IsUpper(t[i]) { assert t[i] == s[i + 1]; }
      }
      KebabCaseUndoesCamelCase(t);
      var r := [s[0]] + CamelCase(t);
      assert r[1..] == CamelCase(t);
      assert !IsUpper(s[0]);
      assert s == [s[0]] + t;
    }
  }

  lemma KebabCaseHead(s: string)
    requires |s| > 0
    ensures |KebabCase(s)| > 0 && KebabCase(s)[0] == (if IsUpper(s[0]) then '-' else s[0])
  {
  }

  /** On strings with no `-x` left, `camelCase` undoes `KebabCase`: the two are inverse bijections. */
  lemma {:induction false} CamelCaseUndoesKebabCase(s: string)
    requires !HasHyphenLower(s)
    ensures CamelCase(KebabCase(s)) == s
    decreases |s|
  {
    if s != [] {
      var t := s[1..];
      assert !HasHyphenLower(t) by {
        forall i: nat | i < |t| ensures !HyphenLowerAt(t, i) {
          assert !HyphenLowerAt(s, i + 1);
        }
      }
      CamelCaseUndoesKebabCase(t);
      var k := KebabCase(t);
      if IsUpper(s[0]) {
        var r := ['-', ToLower(s[0])] + k;
        assert HyphenLowerAt(r, 0);
        assert r[2..] == k;
        assert ToUpper(ToLower(s[0])) == s[0];
        assert s == [s[0]] + t;
      } else {
        var r := [s[0]] + k;
        assert !HyphenLowerAt(s, 0);
        if |t| > 0 {
          KebabCaseHead(t);
          assert s[1] == t[0];
        }
        assert !HyphenLowerAt(r, 0);
        assert r[1..] == k;
        assert s == [s[0]] + t;
      }
    }
  }

  /** Two names without upper-case letters never share a getter-map key. */
  lemma CamelCaseInjective(a: string, b: string)
    requires NoUpper(a) && NoUpper(b)
    requires CamelCase(a) == CamelCase(b)
    ensures a == b
  {
    KebabCaseUndoesCamelCase(a);
    KebabCaseUndoesCamelCase(b);
  }
}
