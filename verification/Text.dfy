/** ASCII counterparts of the string helpers the stores and scanners call: trimming, lower-casing,
    prefix, suffix and substring tests. Trimming takes its cutset, because Go trims every white space
    character where SQL's TRIM removes blanks only. */
module Text {
  /** The characters strings.TrimSpace removes. */
  const SPACES: set<char> := {' ', '\t', '\n', '\r', '\U{000B}', '\U{000C}'}

  /** The characters SQL's TRIM removes. */
  const BLANKS: set<char> := {' '}

  function TrimLeft(s: string, cutset: set<char>): string {
    if s != "" && s[0] in cutset then TrimLeft(s[1..], cutset) else s
  }

  function TrimRight(s: string, cutset: set<char>): string {
    if s != "" && s[|s| - 1] in cutset then TrimRight(s[..|s| - 1], cutset) else s
  }

  function Trim(s: string, cutset: set<char>): string {
    TrimRight(TrimLeft(s, cutset), cutset)
  }

  function TrimSpace(s: string): string {
    Trim(s, SPACES)
  }

  predicate Trimmed(s: string, cutset: set<char>) {
    s == "" || (s[0] !in cutset && s[|s| - 1] !in cutset)
  }

  /** Trimming cuts characters of the cutset off both ends, and as many as it can. */
  lemma {:induction false} TrimLeftCuts(s: string, cutset: set<char>) returns (k: nat)
    ensures k <= |s| && TrimLeft(s, cutset) == s[k..]
    ensures k < |s| ==> s[k] !in cutset
  {
    k := 0;
    if s != "" && s[0] in cutset {
      var rest := TrimLeftCuts(s[1..], cutset);
      k := rest + 1;
      assert s[1..][rest..] == s[k..];
    } else {
      assert s == s[0..];
    }
  }

  lemma {:induction false} TrimRightCuts(s: string, cutset: set<char>)
    ensures TrimRight(s, cutset) == "" || TrimRight(s, cutset)[|TrimRight(s, cutset)| - 1] !in cutset
    ensures TrimRight(s, cutset) <= s
    ensures forall i :: |TrimRight(s, cutset)| <= i < |s| ==> s[i] in cutset
  {
    if s != "" && s[|s| - 1] in cutset {
      TrimRightCuts(s[..|s| - 1], cutset);
    }
  }

  lemma TrimIsTrimmed(s: string, cutset: set<char>)
    ensures Trimmed(Trim(s, cutset), cutset)
  {
    var k := TrimLeftCuts(s, cutset);
    TrimRightCuts(s[k..], cutset);
  }

  /** A text with no character to cut at either end is left alone, by any smaller cutset too. */
  lemma TrimmedIsFixed(s: string, cutset: set<char>)
    requires Trimmed(s, cutset)
    ensures Trim(s, cutset) == s
  {
  }

  function LowerChar(c: char): char {
    if 'A' <= c <= 'Z' then c - 'A' + 'a' else c
  }

  function Lower(s: string): string {
    if s == "" then "" else [LowerChar(s[0])] + Lower(s[1..])
  }

  predicate HasPrefix(s: string, prefix: string) {
    prefix <= s
  }

  predicate HasSuffix(s: string, suffix: string) {
    |suffix| <= |s| && s[|s| - |suffix|..] == suffix
  }

  predicate Contains(s: string, part: string) {
    exists i :: 0 <= i <= |s| && part <= s[i..]
  }

  /** strings.Fields */
  function Fields(s: string): seq<string> {
    if s == "" then []
    else if s[0] in SPACES then Fields(s[1..])
    else if |s| == 1 || s[1] in SPACES then [[s[0]]] + Fields(s[1..])
    else
      var rest := Fields(s[1..]);
      if rest == [] then [[s[0]]] else [[s[0]] + rest[0]] + rest[1..]
  }

  predicate IsWord(word: string) {
    word != "" && forall i :: 0 <= i < |word| ==> word[i] !in SPACES
  }

  predicate AllWords(words: seq<string>) {
    forall i :: 0 <= i < |words| ==> IsWord(words[i])
  }

  lemma {:induction false} FieldsAreWords(s: string)
    ensures AllWords(Fields(s))
    ensures s != "" && s[0] !in SPACES ==> Fields(s) != []
  {
    if s != "" {
      FieldsAreWords(s[1..]);
      if s[0] !in SPACES && |s| > 1 && s[1] !in SPACES {
        var rest := Fields(s[1..]);
        assert IsWord(rest[0]);
        assert IsWord([s[0]] + rest[0]);
      } else if s[0] !in SPACES {
        assert IsWord([s[0]]);
      }
    }
  }

  lemma {:induction false} FieldsOfWord(word: string, rest: string)
    requires IsWord(word) && (rest == "" || rest[0] in SPACES)
    ensures Fields(word + rest) == [word] + Fields(rest)
  {
    var s := word + rest;
    assert s[1..] == word[1..] + rest;
    if |word| == 1 {
      assert s[1..] == rest && word == [word[0]];
      if rest == "" {
        assert Fields(rest) == [];
      }
    } else {
      FieldsOfWord(word[1..], rest);
      assert [word[0]] + word[1..] == word;
      assert ([word[1..]] + Fields(rest))[1..] == Fields(rest);
    }
  }

  /** White space between two texts keeps their words apart. */
  lemma {:induction false} FieldsJoin(a: string, space: char, b: string)
    requires space in SPACES
    ensures Fields(a + [space] + b) == Fields(a) + Fields(b)
  {
    var s := a + [space] + b;
    if a == "" {
      assert s[0] == space && s[1..] == b;
    } else {
      assert s[0] == a[0] && s[1..] == a[1..] + [space] + b;
      assert |s| > 1 && s[1] == if |a| == 1 then space else a[1];
      FieldsJoin(a[1..], space, b);
      FieldsAreWords(a[1..]);
      JoinFirst(a[0], Fields(a[1..]), Fields(b));
    }
  }

  lemma JoinFirst(c: char, words: seq<string>, more: seq<string>)
    ensures words != [] ==> [[c] + (words + more)[0]] + (words + more)[1..] == ([[c] + words[0]] + words[1..]) + more
    ensures [[c]] + (words + more) == ([[c]] + words) + more
  {
  }

  lemma {:induction false} FieldsOfTrimLeft(s: string)
    ensures Fields(TrimLeft(s, SPACES)) == Fields(s)
  {
    if s != "" && s[0] in SPACES {
      FieldsOfTrimLeft(s[1..]);
    }
  }

  lemma {:induction false} FieldsOfTrimRight(s: string)
    ensures Fields(TrimRight(s, SPACES)) == Fields(s)
  {
    if s != "" && s[|s| - 1] in SPACES {
      var n := |s| - 1;
      FieldsOfTrimRight(s[..n]);
      FieldsJoin(s[..n], s[n], "");
      assert s == s[..n] + [s[n]] + "";
      assert Fields(s[..n]) + [] == Fields(s[..n]);
    }
  }

  /** Trimming takes no word away. */
  lemma FieldsOfTrim(s: string)
    ensures Fields(TrimSpace(s)) == Fields(s)
  {
    FieldsOfTrimLeft(s);
    FieldsOfTrimRight(TrimLeft(s, SPACES));
  }

  /** Trimming leaves the text between the first and the last character that is not cut. */
  lemma TrimIsMiddle(s: string, cutset: set<char>) returns (a: nat, b: nat)
    ensures a <= b <= |s| && Trim(s, cutset) == s[a..b] && Trimmed(Trim(s, cutset), cutset)
    ensures forall i :: 0 <= i < a || b <= i < |s| ==> s[i] in cutset
  {
    a := TrimLeftCuts(s, cutset);
    TrimRightCuts(s[a..], cutset);
    TrimIsTrimmed(s, cutset);
    b := a + |Trim(s, cutset)|;
    TrimLeftDrops(s, cutset, a);
    assert Trim(s, cutset) == s[a..][..|Trim(s, cutset)|] == s[a..b];
    forall i | b <= i < |s| ensures s[i] in cutset {
      assert s[i] == s[a..][i - a];
    }
  }

  lemma {:induction false} TrimLeftDrops(s: string, cutset: set<char>, k: nat)
    requires k <= |s| && TrimLeft(s, cutset) == s[k..]
    ensures forall i :: 0 <= i < k ==> s[i] in cutset
  {
    if s != "" && s[0] in cutset && k > 0 {
      assert s[1..][k - 1..] == s[k..];
      TrimLeftDrops(s[1..], cutset, k - 1);
      assert forall i :: 1 <= i < k ==> s[i] == s[1..][i - 1];
    }
  }

  /** Lower-casing changes the capital letters, each to its small one, and nothing else. */
  lemma {:induction false} LowerAt(s: string, i: nat)
    requires i < |s|
    ensures |Lower(s)| == |s|
    ensures Lower(s)[i] == if 'A' <= s[i] <= 'Z' then s[i] + (32 as char) else s[i]
  {
    LowerLength(s);
    if i > 0 {
      LowerAt(s[1..], i - 1);
    }
  }

  lemma {:induction false} LowerLength(s: string)
    ensures |Lower(s)| == |s|
  {
    if s != "" {
      LowerLength(s[1..]);
    }
  }
}
