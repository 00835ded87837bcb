/** `escape` of util.py: for each listed character in turn, put a backslash before every
    occurrence of it, by rewriting the whole text once per character. */
module Escaping {
  import opened Core

  /** `s.replace(c, '\\' + c)`. */
  function ReplaceChar(s: string, c: char): string
  {
    if s == [] then []
    else (if s[0] == c then ['\\', c] else [s[0]]) + ReplaceChar(s[1..], c)
  }

  /** Every entry of the list is a single character, as `assert len(c) == 1` demands. */
  predicate SingleChars(what: seq<string>)
  {
    forall i :: 0 <= i < |what| ==> |what[i]| == 1
  }

  predicate DistinctEntries(what: seq<string>)
  {
    forall i, j :: 0 <= i < j < |what| ==> what[i] != what[j]
  }

  /** The characters the list names. */
  function CharSet(what: seq<string>): set<char>
  {
    set i | 0 <= i < |what| && |what[i]| == 1 :: what[i][0]
  }

  /** What the loop of `escape` computes: the text after rewriting it for each entry in
      order, or the `AssertionError` of the first entry that is not one character. */
  function EscapeAll(where: string, what: seq<string>): (r: Try<string>)
    ensures r.Ok? <==> SingleChars(what)
    ensures r.Fail? ==> r.fault == AssertionError
    decreases |what|
  {
    if what == [] then Ok(where)
    else if |what[0]| != 1 then Fail(AssertionError)
    else
      var r := EscapeAll(ReplaceChar(where, what[0][0]), what[1..]);
      assert SingleChars(what) <==> SingleChars(what[1..]) by {
        if SingleChars(what[1..]) {
          forall i | 0 <= i < |what| ensures |what[i]| == 1 {
            if i > 0 { assert what[i] == what[1..][i - 1]; }
          }
        }
      }
      r
  }

  /** `escape(where, what)`: the loop reassigns `where` once per entry. */
  method Escape(where: string, what: seq<string>) returns (r: Try<string>)
    ensures r == EscapeAll(where, what)
  {
    var w := where;
    var i := 0;
    while i < |what|
      invariant 0 <= i <= |what|
      invariant EscapeAll(w, what[i..]) == EscapeAll(where, what)
    {
      var c := what[i];
      if |c| != 1 {
        return Fail(AssertionError);
      }
      assert what[i..][1..] == what[i + 1..];
      w := ReplaceChar(w, c[0]);
      i := i + 1;
    }
    assert what[i..] == [];
    return Ok(w);
  }

  // ---------------------------------------------------------------------------------
  // A reference definition and what it guarantees

  /** Each character of `s`, preceded by a backslash when it is one of `cs`. */
  function EscapeEach(s: string, cs: set<char>): string
  {
    if s == [] then [] else (if s[0] in cs then ['\\', s[0]] else [s[0]]) + EscapeEach(s[1..], cs)
  }

  /** Drop the backslash in front of each escaped character. */
  function Unescape(s: string): string
  {
    if s == [] then []
    else if s[0] == '\\' && |s| >= 2 then [s[1]] + Unescape(s[2..])
    else [s[0]] + Unescape(s[1..])
  }

  /** How many characters of `s` are among `cs`. */
  function Occurrences(s: string, cs: set<char>): nat
  {
    if s == [] then 0 else (if s[0] in cs then 1 else 0) + Occurrences(s[1..], cs)
  }

  /** When the backslash itself is escaped, the escaping can be undone: nothing is lost. */
  lemma {:induction false} UnescapeEscapeEach(s: string, cs: set<char>)
    requires '\\' in cs
    ensures Unescape(EscapeEach(s, cs)) == s
  {
    if s != [] {
      UnescapeEscapeEach(s[1..], cs);
      var piece := if s[0] in cs then ['\\', s[0]] else [s[0]];
      assert EscapeEach(s, cs) == piece + EscapeEach(s[1..], cs);
      if s[0] in cs {
        assert (piece + EscapeEach(s[1..], cs))[2..] == EscapeEach(s[1..], cs);
      } else {
        assert (piece + EscapeEach(s[1..], cs))[1..] == EscapeEach(s[1..], cs);
      }
    }
  }

  /** Escaping adds exactly one character per occurrence of an escaped character. */
  lemma {:induction false} EscapeEachLength(s: string, cs: set<char>)
    ensures |EscapeEach(s, cs)| == |s| + Occurrences(s, cs)
  {
    if s != [] {
      EscapeEachLength(s[1..], cs);
    }
  }

  /** One `replace` is escaping the one character. */
  lemma {:induction false} ReplaceIsEscapeOne(s: string, c: char)
    ensures ReplaceChar(s, c) == EscapeEach(s, {c})
  {
    if s != [] {
      ReplaceIsEscapeOne(s[1..], c);
    }
  }

  /** `replace` distributes over concatenation. */
  lemma {:induction false} ReplaceConcat(a: string, b: string, c: char)
    ensures ReplaceChar(a + b, c) == ReplaceChar(a, c) + ReplaceChar(b, c)
  {
    if a != [] {
      assert (a + b)[1..] == a[1..] + b;
      ReplaceConcat(a[1..], b, c);
    } else {
      assert a + b == b;
    }
  }

  /** Once the backslash has been escaped, escaping one more character `c` only touches the
      occurrences of `c`: the backslashes inserted before are not `c`. */
  lemma {:induction false} ReplaceAfterEscape(s: string, cs: set<char>, c: char)
    requires '\\' in cs && c !in cs
    ensures ReplaceChar(EscapeEach(s, cs), c) == EscapeEach(s, cs + {c})
  {
    if s != [] {
      var piece := if s[0] in cs then ['\\', s[0]] else [s[0]];
      assert EscapeEach(s, cs) == piece + EscapeEach(s[1..], cs);
      ReplaceConcat(piece, EscapeEach(s[1..], cs), c);
      ReplaceAfterEscape(s[1..], cs, c);
      if s[0] in cs {
        assert ReplaceChar(piece, c) == piece by {
          assert piece[1..] == [s[0]];
          assert ReplaceChar([s[0]], c) == [s[0]] + ReplaceChar([], c);
        }
      }
    }
  }

  /** The loop, started on text whose backslashes are already escaped, with further
      distinct characters that are not escaped yet, escapes each character once. */
  lemma {:induction false} EscapeAllAfterBackslash(s: string, cs: set<char>, what: seq<string>)
    requires '\\' in cs && SingleChars(what) && DistinctEntries(what)
    requires forall i :: 0 <= i < |what| ==> what[i][0] !in cs
    ensures EscapeAll(EscapeEach(s, cs), what) == Ok(EscapeEach(s, cs + CharSet(what)))
    decreases |what|
  {
    if what == [] {
      assert cs + CharSet(what) == cs;
    } else {
      var c := what[0][0];
      ReplaceAfterEscape(s, cs, c);
      var rest := what[1..];
      forall i | 0 <= i < |rest| ensures rest[i][0] !in cs + {c} {
        assert rest[i] == what[i + 1] && what[i + 1] != what[0];
        assert what[0] == [c] && rest[i] == [rest[i][0]];
      }
      assert SingleChars(rest) && DistinctEntries(rest) by {
        forall i | 0 <= i < |rest| ensures |rest[i]| == 1 { assert rest[i] == what[i + 1]; }
        forall i, j | 0 <= i < j < |rest| ensures rest[i] != rest[j] {
          assert rest[i] == what[i + 1] && rest[j] == what[j + 1];
        }
      }
      EscapeAllAfterBackslash(s, cs + {c}, rest);
      assert cs + {c} + CharSet(rest) == cs + CharSet(what) by {
        forall x | x in CharSet(what) ensures x in {c} + CharSet(rest) {
          var i :| 0 <= i < |what| && |what[i]| == 1 && what[i][0] == x;
          if i > 0 { assert what[i] == rest[i - 1]; }
        }
        forall x | x in CharSet(rest) ensures x in CharSet(what) {
          var i :| 0 <= i < |rest| && |rest[i]| == 1 && rest[i][0] == x;
          assert rest[i] == what[i + 1];
        }
      }
    }
  }

  /** With the backslash first and distinct entries, `escape` puts one backslash before each
      occurrence of a listed character and changes nothing else. */
  lemma BackslashFirstEscapesEach(s: string, what: seq<string>)
    requires what != [] && what[0] == "\\" && SingleChars(what) && DistinctEntries(what)
    ensures EscapeAll(s, what) == Ok(EscapeEach(s, CharSet(what)))
  {
    var rest := what[1..];
    ReplaceIsEscapeOne(s, '\\');
    forall i | 0 <= i < |rest| ensures rest[i][0] !in {'\\'} {
      assert rest[i] == what[i + 1] && what[i + 1] != what[0];
      assert |what[i + 1]| == 1 && rest[i] == [rest[i][0]];
    }
    assert SingleChars(rest) && DistinctEntries(rest) by {
      forall i | 0 <= i < |rest| ensures |rest[i]| == 1 { assert rest[i] == what[i + 1]; }
      forall i, j | 0 <= i < j < |rest| ensures rest[i] != rest[j] {
        assert rest[i] == what[i + 1] && rest[j] == what[j + 1];
      }
    }
    EscapeAllAfterBackslash(s, {'\\'}, rest);
    assert {'\\'} + CharSet(rest) == CharSet(what) by {
      assert |what[0]| == 1 && what[0][0] == '\\';
      forall x | x in CharSet(what) ensures x in {'\\'} + CharSet(rest) {
        var i :| 0 <= i < |what| && |what[i]| == 1 && what[i][0] == x;
        if i > 0 { assert what[i] == rest[i - 1]; }
      }
      forall x | x in CharSet(rest) ensures x in CharSet(what) {
        var i :| 0 <= i < |rest| && |rest[i]| == 1 && rest[i][0] == x;
        assert rest[i] == what[i + 1];
      }
    }
  }

  /** With the backslash first and distinct entries, the output is one character longer per
      occurrence of a listed character, and unescaping gives the input back. */
  lemma EscapeWellOrdered(s: string, what: seq<string>)
    requires what != [] && what[0] == "\\" && SingleChars(what) && DistinctEntries(what)
    ensures EscapeAll(s, what).Ok?
    ensures |EscapeAll(s, what).value| == |s| + Occurrences(s, CharSet(what))
    ensures Unescape(EscapeAll(s, what).value) == s
  {
    BackslashFirstEscapesEach(s, what);
    EscapeEachLength(s, CharSet(what));
    assert '\\' in CharSet(what) by { assert |what[0]| == 1 && what[0][0] == '\\'; }
    UnescapeEscapeEach(s, CharSet(what));
  }

  /** Text made of tokens that are either a character outside `cs`, or a backslash followed
      by a character of `cs`: no character of `cs` stands unescaped. */
  predicate WellEscaped(e: string, cs: set<char>)
    decreases |e|
  {
    if e == [] then true
    else if e[0] == '\\' && '\\' in cs then |e| >= 2 && e[1] in cs && WellEscaped(e[2..], cs)
    else e[0] !in cs && WellEscaped(e[1..], cs)
  }

  /** When the backslash is among the escaped characters, every escaped text is well escaped. */
  lemma {:induction false} EscapeEachWellEscaped(s: string, cs: set<char>)
    requires '\\' in cs
    ensures WellEscaped(EscapeEach(s, cs), cs)
  {
    if s != [] {
      EscapeEachWellEscaped(s[1..], cs);
      var e := EscapeEach(s, cs);
      if s[0] in cs {
        assert e == ['\\', s[0]] + EscapeEach(s[1..], cs);
        assert e[2..] == EscapeEach(s[1..], cs);
      } else {
        assert e == [s[0]] + EscapeEach(s[1..], cs);
        assert e[1..] == EscapeEach(s[1..], cs);
      }
    }
  }

  /** `replace` of a character that does not occur changes nothing. */
  lemma {:induction false} ReplaceAbsent(s: string, c: char)
    requires forall i :: 0 <= i < |s| ==> s[i] != c
    ensures ReplaceChar(s, c) == s
  {
    if s != [] {
      ReplaceAbsent(s[1..], c);
    }
  }

  /** Text containing none of the listed characters comes back unchanged; so does any text
      when the list is empty. */
  lemma {:induction false} EscapeAbsent(s: string, what: seq<string>)
    requires SingleChars(what)
    requires forall i :: 0 <= i < |s| ==> s[i] !in CharSet(what)
    ensures EscapeAll(s, what) == Ok(s)
    decreases |what|
  {
    if what != [] {
      assert what[0][0] in CharSet(what);
      ReplaceAbsent(s, what[0][0]);
      assert CharSet(what[1..]) <= CharSet(what) by {
        forall x | x in CharSet(what[1..]) ensures x in CharSet(what) {
          var i :| 0 <= i < |what[1..]| && |what[1..][i]| == 1 && what[1..][i][0] == x;
          assert what[1..][i] == what[i + 1];
        }
      }
      assert SingleChars(what[1..]) by {
        forall i | 0 <= i < |what[1..]| ensures |what[1..][i]| == 1 { assert what[1..][i] == what[i + 1]; }
      }
      EscapeAbsent(s, what[1..]);
    }
  }

  /** Order matters: escaping the backtick before the backslash also escapes the backslash
      that was put before the backtick. */
  lemma OrderMatters()
    ensures EscapeAll("`", ["`", "\\"]) == Ok("\\\\`")
    ensures EscapeAll("`", ["\\", "`"]) == Ok("\\`")
  {
    assert ReplaceChar("`", '`') == "\\`";
    assert ReplaceChar("\\`", '\\') == "\\\\`" by {
      assert ReplaceChar("`", '\\') == "`";
    }
    assert ReplaceChar("`", '\\') == "`";
    assert ["`", "\\"][1..] == ["\\"];
    assert ["\\", "`"][1..] == ["`"];
  }
}
