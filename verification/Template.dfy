/** Prompt templates: {{KEY}} placeholders, replaced in one pass from the left. */
module Template {
  // ----- the pattern -----

  predicate IsUpper(c: char) {
    'A' <= c <= 'Z'
  }

  predicate IsKeyChar(c: char) {
    IsUpper(c) || '0' <= c <= '9' || c == '_'
  }

  predicate IsKey(key: string) {
    key != "" && IsUpper(key[0]) && forall i :: 0 <= i < |key| ==> IsKeyChar(key[i])
  }

  function PlaceholderText(key: string): string {
    "{{" + key + "}}"
  }

  function KeyEnd(s: string, from: nat): (end: nat)
    requires from <= |s|
    ensures from <= end <= |s|
    decreases |s| - from
  {
    if from < |s| && IsKeyChar(s[from]) then KeyEnd(s, from + 1) else from
  }

  /** The length of the match of the pattern at the head of the text, 0 if there is none. */
  function Head(s: string): (n: nat)
    ensures n <= |s| && (n > 0 ==> n >= 5)
  {
    if |s| >= 5 && s[0] == '{' && s[1] == '{' && IsUpper(s[2]) then
      var end := KeyEnd(s, 3);
      if end + 1 < |s| && s[end] == '}' && s[end + 1] == '}' then end + 2 else 0
    else 0
  }

  lemma {:induction false} KeyEndIs(s: string, from: nat, end: nat)
    requires from <= end < |s| && !IsKeyChar(s[end]) && forall i :: from <= i < end ==> IsKeyChar(s[i])
    ensures KeyEnd(s, from) == end
    decreases |s| - from
  {
    if from < end {
      KeyEndIs(s, from + 1, end);
    }
  }

  lemma {:induction false} KeyEndSkips(s: string, from: nat)
    requires from <= |s|
    ensures forall i :: from <= i < KeyEnd(s, from) ==> IsKeyChar(s[i])
    decreases |s| - from
  {
    if from < |s| && IsKeyChar(s[from]) {
      KeyEndSkips(s, from + 1);
    }
  }

  lemma HeadIff(s: string, key: string)
    requires IsKey(key)
    ensures PlaceholderText(key) <= s <==> Head(s) == |key| + 4 && s[2..Head(s) - 2] == key
  {
    var text := PlaceholderText(key);
    if text <= s {
      assert forall i :: 0 <= i < |text| ==> s[i] == text[i];
      assert forall i :: 0 <= i < |key| ==> s[i + 2] == key[i];
      assert forall i :: 3 <= i < |key| + 2 ==> s[i] == key[i - 2];
      KeyEndIs(s, 3, |key| + 2);
      assert s[2..|key| + 2] == key;
    }
    if Head(s) == |key| + 4 && s[2..Head(s) - 2] == key {
      var n := |key| + 4;
      assert s[..n] == s[..2] + s[2..n - 2] + s[n - 2..n];
      assert s[..2] == "{{" && s[n - 2..n] == "}}";
    }
  }

  function KeyOf(text: string): string {
    if |text| >= 4 then text[2..|text| - 2] else ""
  }

  lemma HeadIsPlaceholder(s: string)
    requires Head(s) > 0
    ensures IsKey(KeyOf(s[..Head(s)])) && s[..Head(s)] == PlaceholderText(KeyOf(s[..Head(s)]))
  {
    var n := Head(s);
    var text := s[..n];
    KeyEndSkips(s, 3);
    forall i | 0 <= i < n - 4 ensures IsKeyChar(KeyOf(text)[i]) {
      assert KeyOf(text)[i] == s[i + 2];
    }
    assert text == text[..2] + KeyOf(text) + text[n - 2..];
    assert text[..2] == "{{" && text[n - 2..] == "}}";
  }

  /** A match at the head is a text {{KEY}} there, and no two of those differ in length. */
  lemma HeadIsLength(s: string, n: nat)
    requires n <= |s|
    ensures n > 0 && Head(s) == n <==> IsKey(KeyOf(s[..n])) && s[..n] == PlaceholderText(KeyOf(s[..n]))
  {
    if IsKey(KeyOf(s[..n])) && s[..n] == PlaceholderText(KeyOf(s[..n])) {
      assert PlaceholderText(KeyOf(s[..n])) <= s;
      HeadIff(s, KeyOf(s[..n]));
    }
    if n > 0 && Head(s) == n {
      HeadIsPlaceholder(s);
    }
  }

  // ----- what lexing needs of a pattern -----

  /** The length of the match at the head of a text, 0 for none. */
  type Matcher = string -> nat

  ghost predicate Bounded(head: Matcher) {
    forall s: string :: head(s) <= |s|
  }

  /** More text after a match changes nothing. */
  ghost predicate Extends(head: Matcher) {
    forall u: string, r: string :: head(u) > 0 ==> head(u + r) == head(u)
  }

  /** Text before a match does not begin a match that reaches into it. */
  ghost predicate Apart(head: Matcher) {
    forall u: string, r: string :: u != "" && head(u) == 0 && head(r) > 0 ==> head(u + r) == 0
  }

  /** A match needs no more text than its own. */
  ghost predicate Whole(head: Matcher) {
    forall s: string :: 0 < head(s) <= |s| ==> head(s[..head(s)]) == head(s)
  }

  ghost predicate Lexable(head: Matcher) {
    Bounded(head) && Extends(head) && Apart(head) && Whole(head)
  }

  lemma HeadExtends(u: string, r: string)
    requires Head(u) > 0
    ensures Head(u + r) == Head(u)
  {
    var n := Head(u);
    HeadIsLength(u, n);
    assert (u + r)[..n] == u[..n];
    HeadIsLength(u + r, n);
  }

  lemma HeadIsApart(u: string, r: string)
    requires u != "" && Head(u) == 0 && Head(r) > 0
    ensures Head(u + r) == 0
  {
    var s := u + r;
    var n := Head(s);
    assert s[|u|] == r[0] == '{' && s[|u| + 1] == r[1] == '{';
    if n > 0 {
      HeadIsPlaceholder(s);
      if n <= |u| {
        assert s[..n] == u[..n];
        HeadIsLength(u, n);
      } else {
        BracesOf(s);
        assert false;
      }
    }
  }

  /** In a match the first two characters are the only opening braces. */
  lemma BracesOf(s: string)
    requires Head(s) > 0
    ensures forall i :: 2 <= i < Head(s) ==> s[i] != '{'
  {
    KeyEndSkips(s, 3);
  }

  lemma PatternIsLexable()
    ensures Lexable(Head)
  {
    forall u: string, r: string | Head(u) > 0 ensures Head(u + r) == Head(u) {
      HeadExtends(u, r);
    }
    forall u: string, r: string | u != "" && Head(u) == 0 && Head(r) > 0 ensures Head(u + r) == 0 {
      HeadIsApart(u, r);
    }
    forall s: string | Head(s) > 0 ensures Head(s[..Head(s)]) == Head(s) {
      HeadIsWhole(s);
    }
  }

  lemma HeadIsWhole(s: string)
    requires Head(s) > 0
    ensures Head(s[..Head(s)]) == Head(s)
  {
    var n := Head(s);
    HeadIsLength(s, n);
    assert s[..n][..n] == s[..n];
    HeadIsLength(s[..n], n);
  }

  // ----- replacing: from the leftmost match to the next -----

  /** The place of the leftmost match, the length of the text if there is none. */
  function FirstMatch(s: string, head: Matcher): (q: nat)
    ensures q <= |s|
  {
    if s == "" || head(s) > 0 then 0 else 1 + FirstMatch(s[1..], head)
  }

  /** It is the leftmost: no match before it, and one there unless it is the end. */
  lemma {:induction false} FirstMatchIsLeftmost(s: string, head: Matcher, i: nat)
    requires i <= FirstMatch(s, head) && i < |s|
    ensures head(s[i..]) > 0 <==> i == FirstMatch(s, head)
  {
    assert s[0..] == s;
    if i > 0 {
      FirstMatchIsLeftmost(s[1..], head, i - 1);
      assert s[1..][i - 1..] == s[i..];
    }
  }

  /** ReplaceAllStringFunc: the text up to the leftmost match, the value for it, and so on behind it. */
  function ReplaceAll(s: string, head: Matcher, value: string -> string): string
    decreases |s|, 1
  {
    s[..FirstMatch(s, head)] + ReplaceHead(s[FirstMatch(s, head)..], head, value)
  }

  function ReplaceHead(s: string, head: Matcher, value: string -> string): string
    decreases |s|, 0
  {
    if 0 < head(s) <= |s| then value(s[..head(s)]) + ReplaceAll(s[head(s)..], head, value) else s
  }

  function ValueIn(vars: map<string, string>): string -> string {
    matched => if KeyOf(matched) in vars then vars[KeyOf(matched)] else matched
  }

  function Substitute(body: string, vars: map<string, string>): string {
    ReplaceAll(body, Head, ValueIn(vars))
  }

  // ----- tokens -----

  datatype Token = Literal(text: string) | Placeholder(text: string)

  function Print(tokens: seq<Token>): string {
    if tokens == [] then "" else tokens[0].text + Print(tokens[1..])
  }

  /** A character in front of the first literal, or as a literal of its own. */
  function Push(c: char, tokens: seq<Token>): seq<Token> {
    if tokens != [] && tokens[0].Literal? then [Literal([c] + tokens[0].text)] + tokens[1..] else [Literal([c])] + tokens
  }

  function Lex(s: string, head: Matcher): seq<Token>
    decreases |s|
  {
    if s == "" then []
    else if 0 < head(s) <= |s| then [Placeholder(s[..head(s)])] + Lex(s[head(s)..], head)
    else Push(s[0], Lex(s[1..], head))
  }

  /** Literals as they are, each placeholder's value as it is. */
  function Render(tokens: seq<Token>, value: string -> string): string {
    if tokens == [] then ""
    else (if tokens[0].Literal? then tokens[0].text else value(tokens[0].text)) + Render(tokens[1..], value)
  }

  /** No literal is empty, has a match in it or follows another; a placeholder is a match from end to end. */
  predicate Canonical(tokens: seq<Token>, head: Matcher) {
    tokens != [] ==>
      && Canonical(tokens[1..], head)
      && match tokens[0]
         case Literal(text) => text != "" && Quiet(text, head) && (|tokens| > 1 ==> tokens[1].Placeholder?)
         case Placeholder(text) => text != "" && head(text) == |text|
  }

  predicate Quiet(text: string, head: Matcher) {
    text != "" ==> head(text) == 0 && Quiet(text[1..], head)
  }

  // ----- lexing and printing are inverse -----

  lemma PrintPush(c: char, tokens: seq<Token>)
    ensures Print(Push(c, tokens)) == [c] + Print(tokens)
  {
  }

  /** Printing the tokens gives the text back. */
  lemma {:induction false} PrintOfLex(s: string, head: Matcher)
    ensures Print(Lex(s, head)) == s
    decreases |s|
  {
    if s != "" {
      if 0 < head(s) <= |s| {
        PrintOfLex(s[head(s)..], head);
        assert s == s[..head(s)] + s[head(s)..];
      } else {
        PrintOfLex(s[1..], head);
        PrintPush(s[0], Lex(s[1..], head));
        assert s == [s[0]] + s[1..];
      }
    }
  }

  /** Lexing gives canonical tokens: in particular no literal has a placeholder in it. */
  lemma {:induction false} LexIsCanonical(s: string, head: Matcher)
    requires Lexable(head)
    ensures Canonical(Lex(s, head), head)
    decreases |s|
  {
    if s != "" {
      if head(s) > 0 {
        var n := head(s);
        LexIsCanonical(s[n..], head);
        assert ([Placeholder(s[..n])] + Lex(s[n..], head))[1..] == Lex(s[n..], head);
      } else {
        LexIsCanonical(s[1..], head);
        assert s == [s[0]] + s[1..];
        PushIsCanonical(s[0], s[1..], head);
      }
    }
  }

  lemma PushIsCanonical(c: char, rest: string, head: Matcher)
    requires Lexable(head) && head([c] + rest) == 0 && Canonical(Lex(rest, head), head)
    ensures Canonical(Push(c, Lex(rest, head)), head)
  {
    var tokens := Lex(rest, head);
    PrintOfLex(rest, head);
    if tokens != [] && tokens[0].Literal? {
      var text, after := tokens[0].text, Print(tokens[1..]);
      assert [c] + rest == ([c] + text) + after;
      assert head([c] + text) == 0;
      assert ([c] + text)[1..] == text;
      assert Push(c, tokens)[1..] == tokens[1..];
    } else {
      assert [c] + rest == [c] + Print(tokens);
      assert head([c]) == 0;
      assert [c][1..] == "";
      assert Push(c, tokens)[1..] == tokens;
    }
  }

  lemma {:induction false} LexOfLiteral(text: string, tokens: seq<Token>, head: Matcher)
    requires Lexable(head) && text != "" && Quiet(text, head) && Lex(Print(tokens), head) == tokens
    requires tokens == [] || (tokens[0].Placeholder? && head(Print(tokens)) > 0)
    ensures Lex(text + Print(tokens), head) == [Literal(text)] + tokens
  {
    var c, later, r := text[0], text[1..], Print(tokens);
    assert text == [c] + later;
    Associates([c], later, r);
    assert head([c] + (later + r)) == 0 by {
      if r == "" {
        assert text + r == text;
      }
    }
    LexOneMore(c, later + r, head);
    if later == "" {
      assert later + r == r;
    } else {
      LexOfLiteral(later, tokens, head);
    }
  }

  lemma LexOneMore(c: char, s: string, head: Matcher)
    requires head([c] + s) == 0
    ensures Lex([c] + s, head) == Push(c, Lex(s, head))
  {
    assert ([c] + s)[1..] == s;
  }

  /** Every canonical token list is what lexing its own text gives: so texts and canonical token lists correspond
      one to one. */
  lemma {:induction false} LexOfPrint(tokens: seq<Token>, head: Matcher)
    requires Lexable(head) && Canonical(tokens, head)
    ensures Lex(Print(tokens), head) == tokens
  {
    if tokens != [] {
      var rest := tokens[1..];
      LexOfPrint(rest, head);
      var text, r := tokens[0].text, Print(rest);
      assert tokens == [tokens[0]] + rest;
      if tokens[0].Literal? {
        if rest != [] {
          assert r == rest[0].text + Print(rest[1..]);
        }
        LexOfLiteral(text, rest, head);
      } else {
        assert head(text + r) == |text|;
        assert (text + r)[..|text|] == text && (text + r)[|text|..] == r;
      }
    }
  }

  // ----- what replacing does -----

  lemma RenderPush(c: char, tokens: seq<Token>, value: string -> string)
    ensures Render(Push(c, tokens), value) == [c] + Render(tokens, value)
  {
  }

  lemma ReplaceStep(c: char, s: string, head: Matcher, value: string -> string)
    requires head([c] + s) == 0
    ensures ReplaceAll([c] + s, head, value) == [c] + ReplaceAll(s, head, value)
  {
    var q, longer := FirstMatch(s, head), [c] + s;
    assert longer[1..] == s;
    assert FirstMatch(longer, head) == 1 + q;
    assert longer[1 + q..] == s[q..] && longer[..1 + q] == [c] + s[..q];
    Associates([c], s[..q], ReplaceHead(s[q..], head, value));
  }

  lemma Associates(a: string, b: string, c: string)
    ensures (a + b) + c == a + (b + c)
  {
  }

  lemma ReplaceMatch(s: string, head: Matcher, value: string -> string)
    requires 0 < head(s) <= |s|
    ensures ReplaceAll(s, head, value) == value(s[..head(s)]) + ReplaceAll(s[head(s)..], head, value)
  {
    assert s[0..] == s;
  }

  /** Replacing renders the tokens of the original text, once each: nothing that was inserted is looked at again. */
  lemma {:induction false} ReplaceIsRender(s: string, head: Matcher, value: string -> string)
    requires Bounded(head)
    ensures ReplaceAll(s, head, value) == Render(Lex(s, head), value)
    decreases |s|
  {
    if s != "" {
      if head(s) > 0 {
        ReplaceIsRender(s[head(s)..], head, value);
        ReplaceMatch(s, head, value);
      } else {
        ReplaceIsRender(s[1..], head, value);
        assert s == [s[0]] + s[1..];
        ReplaceStep(s[0], s[1..], head, value);
        RenderPush(s[0], Lex(s[1..], head), value);
      }
    }
  }

  lemma {:induction false} RenderUntouched(tokens: seq<Token>, value: string -> string)
    requires forall i :: 0 <= i < |tokens| && tokens[i].Placeholder? ==> value(tokens[i].text) == tokens[i].text
    ensures Render(tokens, value) == Print(tokens)
  {
    if tokens != [] {
      RenderUntouched(tokens[1..], value);
    }
  }

  // ----- the templates -----

  /** Substitution is the rendering of the template's tokens: literals stay, known keys give their values verbatim. */
  lemma SubstituteIsRender(body: string, vars: map<string, string>)
    ensures Substitute(body, vars) == Render(Lex(body, Head), ValueIn(vars))
  {
    PatternIsLexable();
    ReplaceIsRender(body, Head, ValueIn(vars));
  }

  /** The tokens of a template are its only canonical reading, {{{A}}} and the like included. */
  lemma TokensAreUnique(body: string, tokens: seq<Token>)
    ensures Canonical(tokens, Head) && Print(tokens) == body <==> tokens == Lex(body, Head)
  {
    PatternIsLexable();
    PrintOfLex(body, Head);
    LexIsCanonical(body, Head);
    if Canonical(tokens, Head) {
      LexOfPrint(tokens, Head);
    }
  }

  /** Where every key is unknown or stands for its own placeholder the template comes out unchanged. */
  lemma SubstituteUntouched(body: string, vars: map<string, string>)
    requires forall key :: key in vars ==> vars[key] == PlaceholderText(key) || !Mentions(Lex(body, Head), key)
    ensures Substitute(body, vars) == body
  {
    PatternIsLexable();
    SubstituteIsRender(body, vars);
    PrintOfLex(body, Head);
    LexIsCanonical(body, Head);
    var tokens := Lex(body, Head);
    forall i | 0 <= i < |tokens| && tokens[i].Placeholder? ensures ValueIn(vars)(tokens[i].text) == tokens[i].text {
      PlaceholderAt(tokens, i);
      assert Mentions(tokens, KeyOf(tokens[i].text));
    }
    RenderUntouched(tokens, ValueIn(vars));
  }

  predicate Mentions(tokens: seq<Token>, key: string) {
    exists i :: 0 <= i < |tokens| && tokens[i].Placeholder? && KeyOf(tokens[i].text) == key
  }

  lemma {:induction false} PlaceholderAt(tokens: seq<Token>, i: nat)
    requires Canonical(tokens, Head) && i < |tokens| && tokens[i].Placeholder?
    ensures tokens[i].text == PlaceholderText(KeyOf(tokens[i].text)) && IsKey(KeyOf(tokens[i].text))
  {
    if i == 0 {
      var text := tokens[0].text;
      HeadIsPlaceholder(text);
      assert text[..|text|] == text;
    } else {
      PlaceholderAt(tokens[1..], i - 1);
    }
  }

  // ----- which texts in braces are placeholders -----

  /** A capital letter, and then capital letters, digits and `_`. */
  predicate IsName(text: string) {
    && text != "" && 'A' <= text[0] <= 'Z'
    && forall i :: 0 <= i < |text| ==> 'A' <= text[i] <= 'Z' || '0' <= text[i] <= '9' || text[i] == '_'
  }

  predicate NoBraces(text: string) {
    forall i :: 0 <= i < |text| ==> text[i] != '{' && text[i] != '}'
  }

  lemma {:induction false} NoBraceIsQuiet(s: string)
    requires forall i :: 0 <= i < |s| ==> s[i] != '{'
    ensures Quiet(s, Head)
  {
    if s != "" {
      NoBraceIsQuiet(s[1..]);
    }
  }

  /** A match at the head would be the whole text. */
  lemma OnlyTheWhole(text: string)
    requires NoBraces(text) && Head(PlaceholderText(text)) > 0
    ensures IsKey(text)
  {
    var s := PlaceholderText(text);
    HeadIsPlaceholder(s);
    var n := Head(s);
    var key := KeyOf(s[..n]);
    assert s[n - 1] == s[..n][n - 1] == '}';
    assert forall i :: 0 <= i < |text| ==> s[i + 2] == text[i];
    assert s[n - 2] == s[..n][n - 2] == '}';
    assert s[..n] == s && key == text;
  }

  lemma OtherTextIsQuiet(text: string)
    requires NoBraces(text) && !IsKey(text)
    ensures Quiet(PlaceholderText(text), Head)
  {
    var s := PlaceholderText(text);
    var tail := text + "}}";
    if Head(s) > 0 {
      OnlyTheWhole(text);
    }
    assert s[1..] == "{" + tail && s[1..][1..] == tail && s[1..][1] == tail[0];
    assert forall i :: 0 <= i < |tail| ==> tail[i] != '{';
    NoBraceIsQuiet(tail);
    assert Head(s[1..]) == 0;
    assert Quiet(s[1..], Head);
  }

  lemma OneToken(token: Token, vars: map<string, string>)
    requires Canonical([token], Head)
    ensures Substitute(token.text, vars) == if token.Literal? then token.text else ValueIn(vars)(token.text)
  {
    assert Print([token]) == token.text + "" == token.text;
    TokensAreUnique(token.text, [token]);
    SubstituteIsRender(token.text, vars);
  }

  /** A text in double braces is replaced exactly if it is a name and known, by its value as it is. So keys that begin with
      a digit or `_`, which the comment above the pattern allows, are not: {{1A}} and {{_A}} stay whatever the values. */
  lemma DocumentedKeyIff(text: string, vars: map<string, string>)
    requires NoBraces(text)
    ensures Substitute("{{" + text + "}}", vars) == if IsName(text) && text in vars then vars[text] else "{{" + text + "}}"
  {
    var s := PlaceholderText(text);
    assert KeyOf(s) == text;
    assert IsName(text) <==> IsKey(text);
    if IsKey(text) {
      HeadIff(s, text);
      OneToken(Placeholder(s), vars);
    } else {
      OtherTextIsQuiet(text);
      OneToken(Literal(s), vars);
    }
  }
}
