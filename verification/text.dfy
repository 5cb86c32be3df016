/** String helpers shared by both routes: JavaScript's `trim`, `split("\n")`,
    `join`, `startsWith` and the trailing-slash replacement `/\/+$/`, stated over
    `seq<char>`.  White space is a fixed set of ASCII characters (see IsSpace). */
module Text {
  import opened Results

  /** White space as both `String.prototype.trim` and the regular-expression
      class `\s` see it, restricted to ASCII: space, tab, line feed, carriage
      return, vertical tab and form feed. */
  predicate IsSpace(c: char) {
    c == ' ' || c == '\t' || c == '\n' || c == '\r' || c == '\U{B}' || c == '\U{C}'
  }

  /** Every character of `s` is white space; the empty string is blank. */
  predicate Blank(s: string) {
    forall i :: 0 <= i < |s| ==> IsSpace(s[i])
  }

  /** Every string of `lines` is blank. */
  predicate AllBlank(lines: seq<string>) {
    forall k :: 0 <= k < |lines| ==> Blank(lines[k])
  }

  /** `s.startsWith(prefix)`. */
  predicate StartsWith(s: string, prefix: string) {
    |prefix| <= |s| && s[..|prefix|] == prefix
  }

  /** `s` without its leading white space. */
  function TrimStart(s: string): (r: string)
    ensures |r| <= |s|
    ensures r == [] || !IsSpace(r[0])
  {
    if s != [] && IsSpace(s[0]) then TrimStart(s[1..]) else s
  }

  /** `s` without its trailing white space. */
  function TrimEnd(s: string): (r: string)
    ensures |r| <= |s|
    ensures r == [] || !IsSpace(r[|r| - 1])
    ensures r != [] ==> r[0] == s[0]
  {
    if s != [] && IsSpace(s[|s| - 1]) then TrimEnd(s[..|s| - 1]) else s
  }

  /** `TrimStart` drops a blank prefix and keeps the rest. */
  lemma {:induction false} TrimStartShape(s: string)
    ensures TrimStart(s) == s[|s| - |TrimStart(s)|..]
    ensures Blank(s[..|s| - |TrimStart(s)|])
  {
    if s != [] && IsSpace(s[0]) {
      TrimStartShape(s[1..]);
      var k := |s| - |TrimStart(s)|;
      assert s[1..][..k - 1] == s[1..k];
      forall i | 0 <= i < k ensures IsSpace(s[..k][i]) {
        if i > 0 { assert s[..k][i] == s[1..][..k - 1][i - 1]; }
      }
    }
  }

  /** `TrimEnd` keeps a prefix and drops a blank suffix. */
  lemma {:induction false} TrimEndShape(s: string)
    ensures TrimEnd(s) == s[..|TrimEnd(s)|]
    ensures Blank(s[|TrimEnd(s)|..])
  {
    if s != [] && IsSpace(s[|s| - 1]) {
      var p := s[..|s| - 1];
      TrimEndShape(p);
      var k := |TrimEnd(s)|;
      assert p[..k] == s[..k];
      forall i | k <= i < |s| ensures IsSpace(s[i]) {
        if i < |s| - 1 { assert s[i] == p[k..][i - k]; }
      }
      assert forall i :: 0 <= i < |s[k..]| ==> s[k..][i] == s[k + i];
    }
  }

  /** A trimmed string: no white space at either end. */
  predicate Trimmed(s: string) {
    s == [] || (!IsSpace(s[0]) && !IsSpace(s[|s| - 1]))
  }

  /** `v?.trim()` for a setting that may be unset, an unset value read as
      empty (both are falsy). */
  function Setting(v: Option<string>): string {
    if v.None? then [] else Trim(v.value)
  }

  /** `s.trim()`: a string that neither starts nor ends with white space. */
  function Trim(s: string): (r: string)
    ensures |r| <= |s|
    ensures r != [] ==> !IsSpace(r[0]) && !IsSpace(r[|r| - 1])
  {
    TrimEnd(TrimStart(s))
  }

  /** The trim is empty exactly when the string is blank. */
  lemma TrimEmpty(s: string)
    ensures Trim(s) == [] <==> Blank(s)
  {
    TrimStartShape(s);
    var t := TrimStart(s);
    TrimEndShape(t);
    if Trim(s) == [] {
      forall i | 0 <= i < |s| ensures IsSpace(s[i]) {
        assert s[i] == s[..|s| - |t|][i];
      }
    }
  }

  /** What `Trim` keeps is a contiguous piece of its input. */
  lemma TrimInfix(s: string) returns (i: nat)
    ensures i + |Trim(s)| <= |s| && Trim(s) == s[i..i + |Trim(s)|]
  {
    TrimStartShape(s);
    var t := TrimStart(s);
    TrimEndShape(t);
    i := |s| - |t|;
  }

  /** A string with no white space at either end is its own trim. */
  lemma TrimFixed(s: string)
    requires Trimmed(s)
    ensures Trim(s) == s
  {
  }

  /** Trimming twice is trimming once. */
  lemma TrimTwice(s: string)
    ensures Trim(Trim(s)) == Trim(s)
  {
    TrimFixed(Trim(s));
  }

  /** Removing leading white space first does not change the trim. */
  lemma TrimAfterTrimStart(s: string)
    ensures Trim(TrimStart(s)) == Trim(s)
  {
    var t := TrimStart(s);
    assert TrimStart(t) == t;
  }

  /** Leading white space of `a + b`: once `a` holds a non-blank character,
      `b` is untouched; a blank `a` disappears entirely. */
  lemma {:induction false} TrimStartAppend(a: string, b: string)
    ensures Blank(a) ==> TrimStart(a + b) == TrimStart(b)
    ensures !Blank(a) ==> TrimStart(a + b) == TrimStart(a) + b
  {
    if a == [] {
      assert a + b == b;
    } else {
      assert (a + b)[0] == a[0] && (a + b)[1..] == a[1..] + b;
      if IsSpace(a[0]) {
        assert Blank(a) <==> Blank(a[1..]) by {
          if Blank(a[1..]) {
            forall i | 0 <= i < |a| ensures IsSpace(a[i]) {
              if i > 0 { assert a[i] == a[1..][i - 1]; }
            }
          }
        }
        TrimStartAppend(a[1..], b);
      }
    }
  }

  /** `s.split("\n")`: the pieces between line feeds, in order.  There is
      always at least one piece, and no piece holds a line feed. */
  function Split(s: string): (r: seq<string>)
    ensures |r| >= 1
    ensures forall k :: 0 <= k < |r| ==> '\n' !in r[k]
  {
    if s == [] then [[]]
    else
      var tail := Split(s[1..]);
      if s[0] == '\n' then [[]] + tail else [[s[0]] + tail[0]] + tail[1..]
  }

  /** `lines.join("\n")`. */
  function JoinLines(lines: seq<string>): string
  {
    if lines == [] then []
    else if |lines| == 1 then lines[0]
    else lines[0] + "\n" + JoinLines(lines[1..])
  }

  /** `chunks.join("")`. */
  function Concat(chunks: seq<string>): string
  {
    if chunks == [] then [] else chunks[0] + Concat(chunks[1..])
  }

  /** Splitting on line feeds and joining with line feeds gives the input back. */
  lemma {:induction false} JoinSplit(s: string)
    ensures JoinLines(Split(s)) == s
  {
    if s != [] {
      var tail := Split(s[1..]);
      JoinSplit(s[1..]);
      if s[0] == '\n' {
        assert Split(s) == [[]] + tail;
        assert JoinLines(Split(s)) == [] + "\n" + JoinLines(tail);
      } else if |tail| == 1 {
        assert Split(s) == [[s[0]] + tail[0]];
      } else {
        assert Split(s) == [[s[0]] + tail[0]] + tail[1..];
        assert JoinLines(tail) == tail[0] + "\n" + JoinLines(tail[1..]);
        assert ([[s[0]] + tail[0]] + tail[1..])[1..] == tail[1..];
      }
    }
  }

  /** A string without line feeds is a single piece. */
  lemma {:induction false} SplitSingle(s: string)
    requires '\n' !in s
    ensures Split(s) == [s]
  {
    if s != [] {
      assert '\n' !in s[1..] by {
        forall c | c in s[1..] ensures c != '\n' { }
      }
      SplitSingle(s[1..]);
      assert [s[0]] + s[1..] == s;
    }
  }

  /** Cutting at a line feed: the piece before it comes first, the pieces of
      what follows come after. */
  lemma {:induction false} SplitAt(a: string, b: string)
    requires '\n' !in a
    ensures Split(a + "\n" + b) == [a] + Split(b)
  {
    if a == [] {
      assert a + "\n" + b == "\n" + b;
      assert ("\n" + b)[1..] == b;
    } else {
      assert (a + "\n" + b)[0] == a[0];
      assert (a + "\n" + b)[1..] == a[1..] + "\n" + b;
      assert '\n' !in a[1..] by {
        forall c | c in a[1..] ensures c != '\n' { }
      }
      SplitAt(a[1..], b);
      assert [a[0]] + a[1..] == a;
    }
  }

  /** The first piece ends at the first line feed; the rest is everything
      after it. */
  lemma SplitFirst(s: string, k: nat)
    requires k < |s| && s[k] == '\n' && '\n' !in s[..k]
    ensures Split(s) == [s[..k]] + Split(s[k + 1..])
  {
    assert s == s[..k] + "\n" + s[k + 1..];
    SplitAt(s[..k], s[k + 1..]);
  }

  /** Joining pieces without line feeds and splitting again gives the pieces back. */
  lemma {:induction false} SplitJoin(lines: seq<string>)
    requires |lines| >= 1
    requires forall k :: 0 <= k < |lines| ==> '\n' !in lines[k]
    ensures Split(JoinLines(lines)) == lines
  {
    if |lines| == 1 {
      SplitSingle(lines[0]);
    } else {
      SplitJoin(lines[1..]);
      SplitAt(lines[0], JoinLines(lines[1..]));
      assert [lines[0]] + lines[1..] == lines;
    }
  }

  /** A string is blank exactly when each of its lines is blank. */
  lemma {:induction false} BlankLines(s: string)
    ensures Blank(s) <==> AllBlank(Split(s))
  {
    if s != [] {
      var tail := Split(s[1..]);
      BlankLines(s[1..]);
      BlankCons(s[0], s[1..]);
      assert [s[0]] + s[1..] == s;
      if s[0] == '\n' {
        assert Split(s) == [[]] + tail;
        AllBlankCons([], tail);
      } else {
        var head := [s[0]] + tail[0];
        assert Split(s) == [head] + tail[1..];
        assert tail == [tail[0]] + tail[1..];
        BlankCons(s[0], tail[0]);
        AllBlankCons(head, tail[1..]);
        AllBlankCons(tail[0], tail[1..]);
      }
    }
  }

  lemma BlankCons(c: char, s: string)
    ensures Blank([c] + s) <==> IsSpace(c) && Blank(s)
  {
    var t := [c] + s;
    if IsSpace(c) && Blank(s) {
      forall i | 0 <= i < |t| ensures IsSpace(t[i]) {
        if i > 0 { assert t[i] == s[i - 1]; }
      }
    }
    if Blank(t) {
      assert IsSpace(t[0]);
      forall i | 0 <= i < |s| ensures IsSpace(s[i]) {
        assert s[i] == t[i + 1];
      }
    }
  }

  lemma AllBlankCons(line: string, lines: seq<string>)
    ensures AllBlank([line] + lines) <==> Blank(line) && AllBlank(lines)
  {
    var t := [line] + lines;
    if Blank(line) && AllBlank(lines) {
      forall k | 0 <= k < |t| ensures Blank(t[k]) {
        if k > 0 { assert t[k] == lines[k - 1]; }
      }
    }
    if AllBlank(t) {
      assert Blank(t[0]);
      forall k | 0 <= k < |lines| ensures Blank(lines[k]) {
        assert lines[k] == t[k + 1];
      }
    }
  }

  /** `s.replace(/\/+$/, "")`: `s` without the run of `/` that ends it. */
  function StripTrailingSlashes(s: string): (r: string)
    ensures |r| <= |s| && r == s[..|r|]
    ensures forall i :: |r| <= i < |s| ==> s[i] == '/'
    ensures r == [] || r[|r| - 1] != '/'
  {
    if s != [] && s[|s| - 1] == '/' then StripTrailingSlashes(s[..|s| - 1]) else s
  }

  /** The number a string of decimal digits denotes. */
  function DigitsValue(r: string): nat
    requires forall i :: 0 <= i < |r| ==> '0' <= r[i] <= '9'
  {
    if r == [] then 0 else DigitsValue(r[..|r| - 1]) * 10 + (r[|r| - 1] as int - '0' as int)
  }

  /** The decimal digits of `n`, as JavaScript writes a non-negative integer
      inside a template string: digits only, denoting `n`, with no leading
      zero unless `n` is zero itself. */
  function NatToString(n: nat): (r: string)
    ensures r != []
    ensures forall i :: 0 <= i < |r| ==> '0' <= r[i] <= '9'
    ensures DigitsValue(r) == n
    ensures |r| == 1 || r[0] != '0'
    ensures |r| == 1 <==> n < 10
  {
    var d := ['0' + ((n % 10) as char)];
    if n < 10 then
      assert DigitsValue(d) == DigitsValue([]) * 10 + n;
      d
    else
      var high := NatToString(n / 10);
      var r := high + d;
      assert r[..|r| - 1] == high;
      assert |high| == 1 ==> high[0] != '0';
      r
  }
}
