/** The text normaliser of Rimokon/util.py: from the raw text of a message, the action name
    (`cmd_get_action_name`) and the rest of the command (`cmd_get_rest`), together with
    the Python string primitives they are written with. */
module TextNormalizer {
  import opened Core

  /** Python's `str.isspace` on one character; `str.split()` and `str.strip()` use the same set. */
  predicate IsSpace(c: char)
  {
    || c == ' '
    || '\t' <= c <= '\r'
    || '\U{1C}' <= c <= '\U{1F}'
    || c == '\U{85}' || c == '\U{A0}' || c == '\U{1680}'
    || '\U{2000}' <= c <= '\U{200A}'
    || c == '\U{2028}' || c == '\U{2029}' || c == '\U{202F}' || c == '\U{205F}' || c == '\U{3000}'
  }

  predicate NoSpace(s: string) { forall i :: 0 <= i < |s| ==> !IsSpace(s[i]) }


  predicate IsLower(s: string) { forall i :: 0 <= i < |s| ==> !('A' <= s[i] <= 'Z') }

  /** `s.lstrip()`: the suffix after the leading whitespace. */
  function SkipSpace(s: string): (r: string)
    ensures |r| <= |s|
    ensures r == [] || !IsSpace(r[0])
  {
    if s == [] || !IsSpace(s[0]) then s else SkipSpace(s[1..])
  }

  /** What `lstrip()` removes is whitespace, and what it keeps is the rest of the text. */
  lemma {:induction false} SkipSpaceSuffix(s: string)
    ensures SkipSpace(s) == s[|s| - |SkipSpace(s)|..]
    ensures forall i :: 0 <= i < |s| - |SkipSpace(s)| ==> IsSpace(s[i])
  {
    if s != [] && IsSpace(s[0]) {
      SkipSpaceSuffix(s[1..]);
    }
  }

  /** The text has a word (a non-whitespace character), so `s.split()[0]` does not raise. */
  predicate HasToken(s: string) { SkipSpace(s) != [] }

  /** A text has a word exactly when some character of it is not whitespace. */
  lemma HasTokenAt(s: string, i: nat)
    requires i < |s| && !IsSpace(s[i])
    ensures HasToken(s)
  {
    SkipSpaceSuffix(s);
  }

  /** The longest prefix of `s` without whitespace. */
  function TakeWord(s: string): (w: string)
    ensures |w| <= |s| && w == s[..|w|] && NoSpace(w)
    ensures |w| == |s| || IsSpace(s[|w|])
  {
    if s == [] || IsSpace(s[0]) then [] else [s[0]] + TakeWord(s[1..])
  }

  /** A prefix without whitespace that ends at whitespace or at the end is the word. */
  lemma {:induction false} TakeWordIs(s: string, w: string)
    requires |w| <= |s| && w == s[..|w|] && NoSpace(w)
    requires |w| == |s| || IsSpace(s[|w|])
    ensures TakeWord(s) == w
  {
    if w != [] {
      assert !IsSpace(w[0]);
      TakeWordIs(s[1..], w[1..]);
    }
  }

  /** `s.split()[0]`: the first word, which starts right after the leading whitespace and
      runs up to the next whitespace or the end of the text. */
  function FirstWord(s: string): (w: string)
    requires HasToken(s)
    ensures w != [] && NoSpace(w)
    ensures |w| <= |SkipSpace(s)| && w == SkipSpace(s)[..|w|]
    ensures |w| == |SkipSpace(s)| || IsSpace(SkipSpace(s)[|w|])
  {
    TakeWord(SkipSpace(s))
  }

  /** `s.split()`: the maximal runs of non-whitespace characters, in order; the first of
      them is `FirstWord(s)`. */
  function Words(s: string): (ws: seq<string>)
    ensures ws != [] <==> HasToken(s)
    ensures ws != [] ==> ws[0] == FirstWord(s)
    decreases |s|
  {
    var t := SkipSpace(s);
    if t == [] then []
    else
      var w := TakeWord(t);
      assert w != [];
      [w] + Words(t[|w|..])
  }

  /** Every piece `split()` returns is a non-empty run without whitespace. */
  lemma {:induction false} WordsAreWords(s: string)
    ensures forall i :: 0 <= i < |Words(s)| ==> Words(s)[i] != [] && NoSpace(Words(s)[i])
    decreases |s|
  {
    var t := SkipSpace(s);
    if t != [] {
      var w := TakeWord(t);
      var rest := Words(t[|w|..]);
      WordsAreWords(t[|w|..]);
      assert Words(s) == [w] + rest;
      forall i | 0 <= i < |Words(s)| ensures Words(s)[i] != [] && NoSpace(Words(s)[i]) {
        if i > 0 { assert Words(s)[i] == rest[i - 1]; }
      }
    }
  }

  /** `s.lstrip('/')`. */
  function LStripSlash(s: string): (r: string)
    ensures |r| <= |s|
    ensures r == [] || r[0] != '/'
  {
    if s != [] && s[0] == '/' then LStripSlash(s[1..]) else s
  }

  /** What `lstrip('/')` removes is slashes, and what it keeps is the rest of the text. */
  lemma {:induction false} LStripSlashSuffix(s: string)
    ensures LStripSlash(s) == s[|s| - |LStripSlash(s)|..]
    ensures forall i :: 0 <= i < |s| - |LStripSlash(s)| ==> s[i] == '/'
  {
    if s != [] && s[0] == '/' {
      LStripSlashSuffix(s[1..]);
    }
  }

  function LowerChar(c: char): (d: char)
    ensures IsSpace(d) <==> IsSpace(c)
  {
    if 'A' <= c <= 'Z' then (c as int - 'A' as int + 'a' as int) as char else c
  }

  /** `s.lower()`, on the ASCII letters. */
  function Lower(s: string): (r: string)
    ensures |r| == |s| && IsLower(r)
    ensures r != [] ==> r[0] == LowerChar(s[0])
  {
    if s == [] then [] else [LowerChar(s[0])] + Lower(s[1..])
  }

  /** `lower()` maps every character on its own. */
  lemma {:induction false} LowerAt(s: string)
    ensures forall i :: 0 <= i < |s| ==> Lower(s)[i] == LowerChar(s[i])
  {
    if s != [] {
      LowerAt(s[1..]);
      assert Lower(s) == [LowerChar(s[0])] + Lower(s[1..]);
    }
  }

  /** `s.rstrip()`. */
  function RStrip(s: string): (r: string)
    ensures |r| <= |s|
    ensures r == [] || !IsSpace(r[|r| - 1])
  {
    if s != [] && IsSpace(s[|s| - 1]) then RStrip(s[..|s| - 1]) else s
  }

  /** What `rstrip()` removes is whitespace, and what it keeps is the start of the text. */
  lemma {:induction false} RStripPrefix(s: string)
    ensures RStrip(s) == s[..|RStrip(s)|]
    ensures forall i :: |RStrip(s)| <= i < |s| ==> IsSpace(s[i])
  {
    if s != [] && IsSpace(s[|s| - 1]) {
      RStripPrefix(s[..|s| - 1]);
    }
  }

  /** `s.strip()`. */
  function Strip(s: string): string
  {
    RStrip(SkipSpace(s))
  }

  /** `s[k:]`, which is empty when `k` is past the end. */
  function Drop(s: string, k: nat): string
  {
    if k <= |s| then s[k..] else []
  }

  /** `cmd_get_action_name(s)`: `None` for `None` and for the empty text; otherwise the
      first word without its leading slashes, lower-cased. Other whitespace-only text
      makes `split()[0]` raise, which the precondition excludes (`TryActionName` is the
      raising version). */
  function ActionName(s: Option<string>): (r: Option<string>)
    requires s.Some? && s.value != [] ==> HasToken(s.value)
    ensures r.None? <==> s.None? || s.value == []
    ensures r.Some? ==> NoSpace(r.value) && IsLower(r.value) && (r.value == [] || r.value[0] != '/')
  {
    if s.None? || s.value == [] then None
    else
      var w := FirstWord(s.value);
      LStripSlashSuffix(w);
      LowerAt(LStripSlash(w));
      var n := Lower(LStripSlash(w));
      assert n != [] ==> n[0] != '/';
      Some(n)
  }

  /** `cmd_get_rest(s)` (`cut`) and its separator-keeping variant (`!cut`): the text after
      the first word's length, plus one more character when `cut`. The cut counts from
      the start of `s`, not from the end of the word. */
  function Rest(s: string, cut: bool): (r: string)
    requires HasToken(s)
    ensures |r| <= |s| && r == s[|s| - |r|..]
  {
    Drop(s, |FirstWord(s)| + if cut then 1 else 0)
  }

  /** `cmd_get_action_name` as Python runs it on any text: `split()[0]` raises `IndexError`
      exactly when the non-empty text splits into no words. */
  function TryActionName(s: Option<string>): (r: Try<Option<string>>)
    ensures r.Fail? <==> s.Some? && s.value != [] && Words(s.value) == []
    ensures r.Fail? ==> r.fault == IndexError
    ensures r.Ok? ==> (s.Some? && s.value != [] ==> HasToken(s.value)) && r.value == ActionName(s)
  {
    if s.Some? && s.value != [] && !HasToken(s.value) then Fail(IndexError) else Ok(ActionName(s))
  }

  /** `cmd_get_rest` as Python runs it on any text: `AttributeError` on `None`, and
      `IndexError` from `split()[0]` on text that splits into no words. */
  function TryRest(s: Option<string>, cut: bool): (r: Try<string>)
    ensures r.Ok? <==> s.Some? && Words(s.value) != []
    ensures s.None? ==> r == Fail(AttributeError)
    ensures s.Some? && Words(s.value) == [] ==> r == Fail(IndexError)
    ensures r.Ok? ==> r.value == Rest(s.value, cut)
  {
    if s.None? then Fail(AttributeError)
    else if !HasToken(s.value) then Fail(IndexError)
    else Ok(Rest(s.value, cut))
  }

  // ---------------------------------------------------------------------------------
  // Properties

  /** Text that starts with a word `w` followed by a separator: `w` is its first word. */
  lemma FirstWordOf(w: string, sep: char, t: string)
    requires w != [] && NoSpace(w) && IsSpace(sep)
    ensures HasToken(w + [sep] + t) && FirstWord(w + [sep] + t) == w
  {
    var s := w + [sep] + t;
    assert !IsSpace(s[0]);
    assert SkipSpace(s) == s;
    TakeWordIs(s, w);
  }

  /** Text that is a single word is its own first word. */
  lemma FirstWordOfWord(w: string)
    requires w != [] && NoSpace(w)
    ensures HasToken(w) && FirstWord(w) == w
  {
    assert !IsSpace(w[0]);
    assert SkipSpace(w) == w;
    TakeWordIs(w, w);
  }

  /** For text without leading whitespace, `cmd_get_rest` cuts the first word and exactly
      one separator; the separator-keeping variant keeps that separator. */
  lemma RestAfterWord(w: string, sep: char, t: string)
    requires w != [] && NoSpace(w) && IsSpace(sep)
    ensures Rest(w + [sep] + t, true) == t
    ensures Rest(w + [sep] + t, false) == [sep] + t
  {
    FirstWordOf(w, sep, t);
    var s := w + [sep] + t;
    assert s[|w| + 1..] == t;
    assert s[|w|..] == [sep] + t;
  }

  /** A command that is a single word has an empty rest, whether the separator is cut or not. */
  lemma RestOfWord(w: string, cut: bool)
    requires w != [] && NoSpace(w)
    ensures Rest(w, cut) == []
  {
    FirstWordOfWord(w);
  }

  /** The two variants differ by exactly the one separator character. */
  lemma RestCutDropsOne(s: string)
    requires HasToken(s)
    ensures Rest(s, false) == [] ==> Rest(s, true) == []
    ensures Rest(s, false) != [] ==> Rest(s, true) == Rest(s, false)[1..]
  {
    var k := |FirstWord(s)|;
    assert Rest(s, false) == Drop(s, k) && Rest(s, true) == Drop(s, k + 1);
    if k < |s| {
      assert s[k + 1..] == s[k..][1..];
    }
  }

  /** Normalising the name again gives the same name: `/` + name + rest is read back as
      the name, also when the name is empty (`/` alone is an empty name). */
  lemma {:induction false} ActionNameStable(s: string)
    requires HasToken(s)
    ensures ActionName(Some("/" + ActionName(Some(s)).value + " x")) == ActionName(Some(s))
  {
    var n := ActionName(Some(s)).value;
    var w := ['/'] + n;
    SlashThenName(n);
    var t := w + [' '] + "x";
    assert "/" + n + " x" == t;
    FirstWordOf(w, ' ', "x");
    LowerIdempotent(n);
    calc {
      ActionName(Some(t));
      Some(Lower(LStripSlash(FirstWord(t))));
      Some(Lower(LStripSlash(w)));
      Some(Lower(n));
    }
  }

  /** One slash before a name that does not start with a slash makes a word from which
      `lstrip('/')` gives the name back. */
  lemma SlashThenName(n: string)
    requires NoSpace(n) && (n == [] || n[0] != '/')
    ensures NoSpace(['/'] + n) && ['/'] + n != []
    ensures LStripSlash(['/'] + n) == n
  {
    var w := ['/'] + n;
    assert w[1..] == n;
    forall i | 0 <= i < |w| ensures !IsSpace(w[i]) {
      if i > 0 { assert w[i] == n[i - 1]; }
    }
  }

  /** Lower-casing text that is already lower case changes nothing. */
  lemma LowerIdempotent(s: string)
    requires IsLower(s)
    ensures Lower(s) == s
  {
  }

  /** An orphan slash is an empty action name, unlike a slash followed by a name. */
  lemma OrphanSlashIsEmptyName()
    ensures ActionName(Some("/ x")) == Some("")
    ensures ActionName(Some("/  x")) == Some("")
    ensures ActionName(Some("/x")) == Some("x")
  {
    FirstWordOf("/", ' ', "x");
    assert "/ x" == "/" + [' '] + "x";
    FirstWordOf("/", ' ', " x");
    assert "/  x" == "/" + [' '] + " x";
    FirstWordOfWord("/x");
    assert LStripSlash("/x") == LStripSlash("x");
  }

  /** `"/run a b"` gives `"a b"`, and `" a b"` when the separator is kept. */
  lemma RestExampleWords()
    ensures Rest("/run a b", true) == "a b"
    ensures Rest("/run a b", false) == " a b"
  {
    assert "/run a b" == "/run" + [' '] + "a b";
    RestAfterWord("/run", ' ', "a b");
  }

  /** `"/run"` gives `""`: no rest is not an error. */
  lemma RestExampleAlone()
    ensures Rest("/run", true) == ""
  {
    RestOfWord("/run", true);
  }

  /** `"/run  a"` gives `" a"`: exactly one separator is cut. */
  lemma RestExampleTwoSpaces()
    ensures Rest("/run  a", true) == " a"
  {
    assert "/run  a" == "/run" + [' '] + " a";
    RestAfterWord("/run", ' ', " a");
  }

  /** `" run a"` gives `" a"`: leading whitespace is not skipped when cutting, because the
      cut is counted from the start of the text. */
  lemma RestExampleLeadingSpace()
    ensures HasToken(" run a") && Rest(" run a", true) == " a"
  {
    var s := " run a";
    assert s[1..] == "run" + [' '] + "a";
    FirstWordOf("run", ' ', "a");
    assert SkipSpace(s) == SkipSpace(s[1..]) == s[1..];
    assert FirstWord(s) == FirstWord(s[1..]) == "run";
    assert s[4..] == " a";
  }

  /** The action name and the rest both raise on text made only of whitespace, and
      `cmd_get_rest` raises on `None`. */
  lemma RaisingInputs()
    ensures TryActionName(Some("   ")) == Fail(IndexError)
    ensures TryRest(Some("   "), true) == Fail(IndexError)
    ensures TryRest(Some(""), true) == Fail(IndexError)
    ensures TryRest(None, true) == Fail(AttributeError)
    ensures TryActionName(None) == Ok(None) && TryActionName(Some("")) == Ok(None)
  {
    assert !HasToken("   ") by {
      forall i | 0 <= i < 3 ensures IsSpace("   "[i]) { }
    }
  }
}
