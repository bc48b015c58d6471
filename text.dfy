/**
 * The JavaScript string operations the modelled code relies on:
 * `trim`, `toLowerCase` (ASCII letters only), `includes`, `split('.')`
 * and `length` (which counts UTF-16 code units, not characters).
 */
module Text {

  /** JavaScript's WhiteSpace and LineTerminator characters, the set `String.prototype.trim` removes. */
  predicate IsJsSpace(c: char)
  {
    || c == '\t' || c == '\n' || c == '\U{000B}' || c == '\U{000C}' || c == '\r' || c == ' '
    || c == '\U{00A0}' || c == '\U{1680}' || ('\U{2000}' <= c <= '\U{200A}')
    || c == '\U{2028}' || c == '\U{2029}' || c == '\U{202F}' || c == '\U{205F}'
    || c == '\U{3000}' || c == '\U{FEFF}'
  }

  function TrimStart(s: string): string
  {
    if s != [] && IsJsSpace(s[0]) then TrimStart(s[1..]) else s
  }

  function TrimEnd(s: string): string
  {
    if s != [] && IsJsSpace(s[|s| - 1]) then TrimEnd(s[..|s| - 1]) else s
  }

  /** `s.trim()`: `s` without its leading and trailing white space. */
  function Trim(s: string): string
  {
    TrimEnd(TrimStart(s))
  }

  /** `TrimStart` drops exactly the leading white space. */
  lemma {:induction false} TrimStartSpec(s: string)
    ensures |TrimStart(s)| <= |s| && TrimStart(s) == s[|s| - |TrimStart(s)|..]
    ensures TrimStart(s) == [] || !IsJsSpace(TrimStart(s)[0])
    ensures forall i :: 0 <= i < |s| - |TrimStart(s)| ==> IsJsSpace(s[i])
  {
    if s != [] && IsJsSpace(s[0]) {
      TrimStartSpec(s[1..]);
    }
  }

  /** `TrimEnd` drops exactly the trailing white space. */
  lemma {:induction false} TrimEndSpec(s: string)
    ensures |TrimEnd(s)| <= |s| && TrimEnd(s) == s[..|TrimEnd(s)|]
    ensures TrimEnd(s) == [] || !IsJsSpace(TrimEnd(s)[|TrimEnd(s)| - 1])
    ensures forall i :: |TrimEnd(s)| <= i < |s| ==> IsJsSpace(s[i])
  {
    if s != [] && IsJsSpace(s[|s| - 1]) {
      TrimEndSpec(s[..|s| - 1]);
    }
  }

  /**
   * What `trim` promises: the result is a piece of `s` that neither starts nor
   * ends with white space, it is empty exactly when `s` is all white space,
   * and a string with no white space at either end is left as it is.
   */
  lemma TrimSpec(s: string)
    ensures Includes(s, Trim(s))
    ensures Trim(s) == [] || (!IsJsSpace(Trim(s)[0]) && !IsJsSpace(Trim(s)[|Trim(s)| - 1]))
    ensures Trim(s) == [] <==> forall i :: 0 <= i < |s| ==> IsJsSpace(s[i])
    ensures s == [] || (!IsJsSpace(s[0]) && !IsJsSpace(s[|s| - 1])) ==> Trim(s) == s
  {
    var t := TrimStart(s);
    TrimStartSpec(s);
    TrimEndSpec(t);
    var r := TrimEnd(t);
    assert r <= s[|s| - |t|..];
    if r != [] {
      assert r[0] == t[0];
    }
  }

  lemma TrimIdempotent(s: string)
    ensures Trim(Trim(s)) == Trim(s)
  {
    TrimSpec(s);
    TrimSpec(Trim(s));
  }

  /** A string made only of white space trims to the empty string. */
  lemma TrimAllSpace(s: string)
    requires forall i :: 0 <= i < |s| ==> IsJsSpace(s[i])
    ensures Trim(s) == []
  {
    TrimSpec(s);
  }

  function LowerChar(c: char): char
  {
    if 'A' <= c <= 'Z' then (c as int + 32) as char else c
  }

  /** Lower-casing keeps white space as it is and makes nothing else white space. */
  lemma LowerCharSpace(c: char)
    ensures IsJsSpace(LowerChar(c)) <==> IsJsSpace(c)
    ensures IsJsSpace(c) ==> LowerChar(c) == c
  {
  }

  /** `s.toLowerCase()` restricted to the ASCII letters A-Z; every other character is kept. */
  function Lower(s: string): string
  {
    if s == [] then [] else [LowerChar(s[0])] + Lower(s[1..])
  }

  /** Lower-casing keeps the length and maps each character on its own. */
  lemma {:induction false} LowerSpec(s: string)
    ensures |Lower(s)| == |s|
    ensures forall i :: 0 <= i < |s| ==> Lower(s)[i] == LowerChar(s[i])
  {
    if s != [] {
      LowerSpec(s[1..]);
    }
  }

  /** Text without capital letters is its own lower case. */
  lemma LowerKeepsLowerCase(s: string)
    requires forall i :: 0 <= i < |s| ==> !('A' <= s[i] <= 'Z')
    ensures Lower(s) == s
  {
  }

  lemma LowerIdempotent(s: string)
    ensures Lower(Lower(s)) == Lower(s)
  {
  }

  lemma {:induction false} LowerAppend(s: string, t: string)
    ensures Lower(s + t) == Lower(s) + Lower(t)
  {
    if s != [] {
      assert (s + t)[1..] == s[1..] + t;
      LowerAppend(s[1..], t);
    } else {
      assert s + t == t;
    }
  }

  /** Lower-casing never moves white space, so the two orders of trim and lower-case agree. */
  lemma {:induction false} TrimLowerCommute(s: string)
    ensures Trim(Lower(s)) == Lower(Trim(s))
  {
    TrimStartLower(s);
    TrimEndLower(TrimStart(s));
  }

  lemma {:induction false} TrimStartLower(s: string)
    ensures TrimStart(Lower(s)) == Lower(TrimStart(s))
  {
    if s != [] {
      LowerCharSpace(s[0]);
      assert Lower(s)[1..] == Lower(s[1..]);
      TrimStartLower(s[1..]);
    }
  }

  lemma {:induction false} TrimEndLower(s: string)
    ensures TrimEnd(Lower(s)) == Lower(TrimEnd(s))
  {
    if s != [] {
      var init := s[..|s| - 1];
      LowerCharSpace(s[|s| - 1]);
      assert s == init + [s[|s| - 1]];
      LowerAppend(init, [s[|s| - 1]]);
      LowerSpec(init);
      assert Lower(s)[..|s| - 1] == Lower(init);
      TrimEndLower(init);
    }
  }

  /** `hay.includes(needle)`: `needle` occurs in `hay` at some position (the empty string occurs everywhere). */
  function Includes(hay: string, needle: string): (r: bool)
    ensures r <==> exists i :: 0 <= i <= |hay| && needle <= hay[i..]
  {
    if needle <= hay then
      assert needle <= hay[0..];
      true
    else if hay == [] then
      false
    else
      var r := Includes(hay[1..], needle);
      assert forall i :: 1 <= i <= |hay| ==> hay[i..] == hay[1..][i - 1..];
      assert r ==> exists i :: 0 <= i <= |hay| && needle <= hay[i..] by {
        if r {
          var j :| 0 <= j <= |hay[1..]| && needle <= hay[1..][j..];
          assert needle <= hay[j + 1..];
        }
      }
      r
  }

  /** A needle holding a character the haystack lacks is not included in it. */
  lemma ForeignCharNotIncluded(hay: string, needle: string, c: char)
    requires c in needle && c !in hay
    ensures !Includes(hay, needle)
  {
  }

  /** A needle longer than the haystack is not included in it. */
  lemma LongerNotIncluded(hay: string, needle: string)
    requires |needle| > |hay|
    ensures !Includes(hay, needle)
  {
  }

  /** `s.split('.')`: the maximal dot-free pieces of `s`, always at least one. */
  function Split(s: string): (r: seq<string>)
    ensures |r| >= 1
    ensures forall i :: 0 <= i < |r| ==> '.' !in r[i]
    ensures Join(r) == s
  {
    if s == [] then [[]]
    else
      var rest := Split(s[1..]);
      if s[0] == '.' then [[]] + rest
      else
        assert Join([[s[0]] + rest[0]] + rest[1..]) == s by {
          JoinConsHead(s[0], rest);
        }
        [[s[0]] + rest[0]] + rest[1..]
  }

  /** `parts.join('.')`. */
  function Join(parts: seq<string>): string
    requires |parts| >= 1
  {
    if |parts| == 1 then parts[0] else parts[0] + ['.'] + Join(parts[1..])
  }

  lemma {:induction false} JoinConsHead(c: char, parts: seq<string>)
    requires |parts| >= 1
    ensures Join([[c] + parts[0]] + parts[1..]) == [c] + Join(parts)
  {
    var q := [[c] + parts[0]] + parts[1..];
    if |parts| == 1 {
      assert q == [[c] + parts[0]];
    } else {
      var tail := Join(parts[1..]);
      assert Join(q) == ([c] + parts[0]) + ['.'] + tail by {
        assert q[0] == [c] + parts[0] && q[1..] == parts[1..];
      }
      assert Join(parts) == parts[0] + ['.'] + tail;
    }
  }

  /** Splitting undoes joining dot-free pieces: the two are inverse. */
  lemma {:induction false} SplitJoin(parts: seq<string>)
    requires |parts| >= 1
    requires forall i :: 0 <= i < |parts| ==> '.' !in parts[i]
    ensures Split(Join(parts)) == parts
  {
    if |parts| == 1 {
      DotFreeSplit(parts[0]);
    } else {
      SplitJoin(parts[1..]);
      SplitDotFreePrefix(parts[0], Join(parts[1..]));
      assert Join(parts) == parts[0] + ['.'] + Join(parts[1..]);
      assert [parts[0]] + parts[1..] == parts;
    }
  }

  lemma {:induction false} DotFreeSplit(s: string)
    requires '.' !in s
    ensures Split(s) == [s]
  {
    if s != [] {
      DotFreeSplit(s[1..]);
    }
  }

  lemma {:induction false} SplitDotFreePrefix(p: string, rest: string)
    requires '.' !in p
    ensures Split(p + ['.'] + rest) == [p] + Split(rest)
  {
    if p == [] {
      assert p + ['.'] + rest == ['.'] + rest;
      assert (['.'] + rest)[1..] == rest;
    } else {
      assert (p + ['.'] + rest)[1..] == p[1..] + ['.'] + rest;
      SplitDotFreePrefix(p[1..], rest);
      assert [p[0]] + p[1..] == p;
    }
  }

  /** `parts[parts.length - 1]` for `parts = s.split('.')`: the text after the last dot. */
  function LastSegment(s: string): (r: string)
    ensures '.' !in r
    ensures '.' !in s ==> r == s
  {
    if '.' !in s then DotFreeSplit(s); var parts := Split(s); parts[|parts| - 1]
    else var parts := Split(s); parts[|parts| - 1]
  }

  /** The number of UTF-16 code units of `s`, which is what JavaScript's `length` counts. */
  function Utf16Length(s: string): (n: nat)
    ensures |s| <= n <= 2 * |s|
    ensures (forall i :: 0 <= i < |s| ==> s[i] as int < 0x1_0000) ==> n == |s|
  {
    if s == [] then 0 else (if s[0] as int < 0x1_0000 then 1 else 2) + Utf16Length(s[1..])
  }
}
