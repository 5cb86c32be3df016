/** `escapeHtml` of app/api/publish/route.ts: five global single-character
    replacements applied in a fixed order, the ampersand first. */
module Escape {
  import opened Text

  /** `s.replace(/c/g, rep)`: every occurrence of `c` replaced by `rep`.  The
      result holds only characters of `s` and of `rep`. */
  function ReplaceAll(s: string, c: char, rep: string): (r: string)
    ensures forall x :: x in r ==> (x in s && x != c) || x in rep
  {
    if s == [] then [] else (if s[0] == c then rep else [s[0]]) + ReplaceAll(s[1..], c, rep)
  }

  /** `escapeHtml(value)`: `&`, `<`, `>`, `"` and `'` replaced by `&amp;`,
      `&lt;`, `&gt;`, `&quot;` and `&#39;`, in that order.  Its output holds
      none of the four markup characters. */
  function EscapeHtml(s: string): (r: string)
    ensures Escaped(r)
  {
    ReplaceAll(ReplaceAll(ReplaceAll(ReplaceAll(ReplaceAll(
      s, '&', "&amp;"), '<', "&lt;"), '>', "&gt;"), '"', "&quot;"), '\'', "&#39;")
  }

  /** No raw `<`, `>`, `"` or `'`. */
  predicate Escaped(t: string) {
    '<' !in t && '>' !in t && '"' !in t && '\'' !in t
  }

  /** The entity one character becomes, or the character itself. */
  function EscapeChar(c: char): string
  {
    match c
    case '&' => "&amp;"
    case '<' => "&lt;"
    case '>' => "&gt;"
    case '"' => "&quot;"
    case '\'' => "&#39;"
    case _ => [c]
  }

  /** Reference definition: escape every character on its own, in one pass. */
  function EscapeEach(s: string): string
  {
    if s == [] then [] else EscapeChar(s[0]) + EscapeEach(s[1..])
  }

  /** `t` begins with one of the five entities `EscapeHtml` produces. */
  predicate StartsEntity(t: string) {
    StartsWith(t, "&amp;") || StartsWith(t, "&lt;") || StartsWith(t, "&gt;") ||
    StartsWith(t, "&quot;") || StartsWith(t, "&#39;")
  }

  /** Replacing characters commutes with concatenation. */
  lemma {:induction false} ReplaceAllAppend(a: string, b: string, c: char, rep: string)
    ensures ReplaceAll(a + b, c, rep) == ReplaceAll(a, c, rep) + ReplaceAll(b, c, rep)
  {
    if a == [] {
      assert a + b == b;
    } else {
      assert (a + b)[0] == a[0] && (a + b)[1..] == a[1..] + b;
      ReplaceAllAppend(a[1..], b, c, rep);
    }
  }

  lemma EscapeHtmlAppend(a: string, b: string)
    ensures EscapeHtml(a + b) == EscapeHtml(a) + EscapeHtml(b)
  {
    var a1, b1 := ReplaceAll(a, '&', "&amp;"), ReplaceAll(b, '&', "&amp;");
    ReplaceAllAppend(a, b, '&', "&amp;");
    var a2, b2 := ReplaceAll(a1, '<', "&lt;"), ReplaceAll(b1, '<', "&lt;");
    ReplaceAllAppend(a1, b1, '<', "&lt;");
    var a3, b3 := ReplaceAll(a2, '>', "&gt;"), ReplaceAll(b2, '>', "&gt;");
    ReplaceAllAppend(a2, b2, '>', "&gt;");
    var a4, b4 := ReplaceAll(a3, '"', "&quot;"), ReplaceAll(b3, '"', "&quot;");
    ReplaceAllAppend(a3, b3, '"', "&quot;");
    ReplaceAllAppend(a4, b4, '\'', "&#39;");
  }

  /** A string without `c` is left alone. */
  lemma {:induction false} ReplaceAllAbsent(s: string, c: char, rep: string)
    requires c !in s
    ensures ReplaceAll(s, c, rep) == s
  {
    if s != [] {
      assert c !in s[1..] by {
        forall x | x in s[1..] ensures x != c { }
      }
      ReplaceAllAbsent(s[1..], c, rep);
      assert [s[0]] + s[1..] == s;
    }
  }

  lemma ReplaceAllSingle(x: char, c: char, rep: string)
    ensures ReplaceAll([x], c, rep) == if x == c then rep else [x]
  {
    assert [x][1..] == [];
  }

  /** The last `n` replacements of the chain, applied to `s`. */
  lemma ChainAbsent(s: string, n: nat)
    requires n <= 4
    requires n >= 4 ==> '<' !in s
    requires n >= 3 ==> '>' !in s
    requires n >= 2 ==> '"' !in s
    requires n >= 1 ==> '\'' !in s
    ensures n == 4 ==> ReplaceAll(ReplaceAll(ReplaceAll(ReplaceAll(s, '<', "&lt;"), '>', "&gt;"), '"', "&quot;"), '\'', "&#39;") == s
    ensures n == 3 ==> ReplaceAll(ReplaceAll(ReplaceAll(s, '>', "&gt;"), '"', "&quot;"), '\'', "&#39;") == s
    ensures n == 2 ==> ReplaceAll(ReplaceAll(s, '"', "&quot;"), '\'', "&#39;") == s
    ensures n == 1 ==> ReplaceAll(s, '\'', "&#39;") == s
  {
    if n >= 4 { ReplaceAllAbsent(s, '<', "&lt;"); }
    if n >= 3 { ReplaceAllAbsent(s, '>', "&gt;"); }
    if n >= 2 { ReplaceAllAbsent(s, '"', "&quot;"); }
    if n >= 1 { ReplaceAllAbsent(s, '\'', "&#39;"); }
  }

  lemma EscapeHtmlChar(c: char)
    ensures EscapeHtml([c]) == EscapeChar(c)
  {
    ReplaceAllSingle(c, '&', "&amp;");
    if c == '&' {
      ChainAbsent("&amp;", 4);
    } else {
      ReplaceAllSingle(c, '<', "&lt;");
      if c == '<' {
        ChainAbsent("&lt;", 3);
      } else {
        ReplaceAllSingle(c, '>', "&gt;");
        if c == '>' {
          ChainAbsent("&gt;", 2);
        } else {
          ReplaceAllSingle(c, '"', "&quot;");
          if c == '"' {
            ChainAbsent("&quot;", 1);
          } else {
            ReplaceAllSingle(c, '\'', "&#39;");
          }
        }
      }
    }
  }

  /** The ordered chain of replacements escapes each character exactly once:
      since `&` goes first, no entity made by a later replacement is escaped
      again. */
  lemma {:induction false} EscapeHtmlIsEscapeEach(s: string)
    ensures EscapeHtml(s) == EscapeEach(s)
  {
    if s != [] {
      assert s == [s[0]] + s[1..];
      EscapeHtmlAppend([s[0]], s[1..]);
      EscapeHtmlChar(s[0]);
      EscapeHtmlIsEscapeEach(s[1..]);
    }
  }

  /** Every `&` of the output begins one of the five entities. */
  lemma AmpersandsBeginEntities(s: string)
    ensures forall i :: 0 <= i < |EscapeHtml(s)| && EscapeHtml(s)[i] == '&' ==>
              StartsEntity(EscapeHtml(s)[i..])
  {
    EscapeHtmlIsEscapeEach(s);
    EscapeEachAmpersands(s);
  }

  lemma {:induction false} EscapeEachAmpersands(s: string)
    ensures forall i :: 0 <= i < |EscapeEach(s)| && EscapeEach(s)[i] == '&' ==>
              StartsEntity(EscapeEach(s)[i..])
  {
    if s != [] {
      var e, rest := EscapeChar(s[0]), EscapeEach(s[1..]);
      var r := e + rest;
      assert EscapeEach(s) == r;
      EscapeEachAmpersands(s[1..]);
      forall i | 0 <= i < |r| && r[i] == '&' ensures StartsEntity(r[i..]) {
        if i < |e| {
          assert i == 0;
          assert r[..|e|] == e;
        } else {
          assert r[i..] == rest[i - |e|..];
        }
      }
    }
  }

  /** Decoding of the five entities; any other character stands for itself. */
  function Unescape(t: string): string
    decreases |t|
  {
    if t == [] then []
    else if StartsWith(t, "&amp;") then "&" + Unescape(t[5..])
    else if StartsWith(t, "&lt;") then "<" + Unescape(t[4..])
    else if StartsWith(t, "&gt;") then ">" + Unescape(t[4..])
    else if StartsWith(t, "&quot;") then "\"" + Unescape(t[6..])
    else if StartsWith(t, "&#39;") then "'" + Unescape(t[5..])
    else [t[0]] + Unescape(t[1..])
  }

  /** Escaping loses nothing: decoding the entities gives the text back. */
  lemma UnescapeEscapeHtml(s: string)
    ensures Unescape(EscapeHtml(s)) == s
  {
    EscapeHtmlIsEscapeEach(s);
    UnescapeEscapeEach(s);
  }

  lemma {:induction false} UnescapeEscapeEach(s: string)
    ensures Unescape(EscapeEach(s)) == s
  {
    if s != [] {
      var e, rest := EscapeChar(s[0]), EscapeEach(s[1..]);
      UnescapeEscapeEach(s[1..]);
      UnescapeStep(s[0], rest);
      assert [s[0]] + s[1..] == s;
    }
  }

  /** Decoding the front of one escaped character gives that character. */
  lemma UnescapeStep(c: char, rest: string)
    ensures Unescape(EscapeChar(c) + rest) == [c] + Unescape(rest)
  {
    var e := EscapeChar(c);
    var t := e + rest;
    assert t[..|e|] == e && t[|e|..] == rest;
    if c == '&' {
      assert StartsWith(t, "&amp;");
    } else if c == '<' {
      assert t[1] == 'l';
      assert !StartsWith(t, "&amp;") by { if |t| >= 5 { assert t[..5][1] == t[1]; } }
      assert StartsWith(t, "&lt;");
    } else if c == '>' {
      assert t[1] == 'g';
      assert !StartsWith(t, "&amp;") by { if |t| >= 5 { assert t[..5][1] == t[1]; } }
      assert !StartsWith(t, "&lt;") by { assert t[..4][1] == t[1]; }
      assert StartsWith(t, "&gt;");
    } else if c == '"' {
      assert t[1] == 'q';
      assert !StartsWith(t, "&amp;") by { assert t[..5][1] == t[1]; }
      assert !StartsWith(t, "&lt;") by { assert t[..4][1] == t[1]; }
      assert !StartsWith(t, "&gt;") by { assert t[..4][1] == t[1]; }
      assert StartsWith(t, "&quot;");
    } else if c == '\'' {
      assert t[1] == '#';
      assert !StartsWith(t, "&amp;") by { assert t[..5][1] == t[1]; }
      assert !StartsWith(t, "&lt;") by { assert t[..4][1] == t[1]; }
      assert !StartsWith(t, "&gt;") by { assert t[..4][1] == t[1]; }
      assert !StartsWith(t, "&quot;") by { if |t| >= 6 { assert t[..6][1] == t[1]; } }
      assert StartsWith(t, "&#39;");
    } else {
      assert t[0] == c && c != '&';
      assert !StartsWith(t, "&amp;") by { if |t| >= 5 { assert t[..5][0] == t[0]; } }
      assert !StartsWith(t, "&lt;") by { if |t| >= 4 { assert t[..4][0] == t[0]; } }
      assert !StartsWith(t, "&gt;") by { if |t| >= 4 { assert t[..4][0] == t[0]; } }
      assert !StartsWith(t, "&quot;") by { if |t| >= 6 { assert t[..6][0] == t[0]; } }
      assert !StartsWith(t, "&#39;") by { if |t| >= 5 { assert t[..5][0] == t[0]; } }
    }
  }
}
