/**
 * String helpers shared by the components: the JavaScript `trim`,
 * an ASCII `toLowerCase`, `includes` (substring containment),
 * the `replace(/^\//, "")` slash strip and `slice(1)`.
 */
module Text {

  /** The characters `String.prototype.trim` removes: ECMAScript WhiteSpace and LineTerminator. */
  predicate IsWhitespace(c: char)
  {
    || c == '\t' || c == '\n' || c == '\U{000B}' || c == '\U{000C}' || c == '\r' || c == ' '
    || c == '\U{00A0}' || c == '\U{1680}' || ('\U{2000}' <= c <= '\U{200A}')
    || c == '\U{2028}' || c == '\U{2029}' || c == '\U{202F}' || c == '\U{205F}'
    || c == '\U{3000}' || c == '\U{FEFF}'
  }

  /** True when every character of `s` is whitespace (this includes the empty string). */
  predicate IsBlank(s: string)
  {
    forall i :: 0 <= i < |s| ==> IsWhitespace(s[i])
  }

  /** `s` with its leading whitespace removed. */
  function TrimStart(s: string): string
  {
    if s != [] && IsWhitespace(s[0]) then TrimStart(s[1..]) else s
  }

  /** `s` with its trailing whitespace removed. */
  function TrimEnd(s: string): string
  {
    if s != [] && IsWhitespace(s[|s| - 1]) then TrimEnd(s[..|s| - 1]) else s
  }

  /** `String.prototype.trim`. */
  function Trim(s: string): string
  {
    TrimEnd(TrimStart(s))
  }

  /** ASCII-only `toLowerCase` of one character. */
  function LowerChar(c: char): char
  {
    if 'A' <= c <= 'Z' then (c as int + 32) as char else c
  }

  /** ASCII-only `toLowerCase`. */
  function Lower(s: string): string
  {
    seq(|s|, i requires 0 <= i < |s| => LowerChar(s[i]))
  }

  /** `s.startsWith(prefix)`. */
  predicate StartsWith(s: string, prefix: string)
  {
    prefix <= s
  }

  /** `s.includes(sub)`: `sub` occurs in `s` at some position. */
  predicate Contains(s: string, sub: string)
    decreases |s|
  {
    StartsWith(s, sub) || (s != [] && Contains(s[1..], sub))
  }

  /** `s.replace(/^\//, "")`: removes at most one leading slash. */
  function StripLeadingSlash(s: string): (r: string)
    ensures s == r || s == "/" + r
    ensures |s| > 0 && s[0] == '/' ==> |r| == |s| - 1
  {
    if |s| > 0 && s[0] == '/' then s[1..] else s
  }

  /** `s.slice(1)`: everything after the first character, or "" for the empty string. */
  function SliceFromOne(s: string): (r: string)
    ensures s == [] ==> r == []
    ensures s != [] ==> s == [s[0]] + r
  {
    if s == [] then [] else s[1..]
  }

  // ---------------------------------------------------------------------
  // Containment

  /** An occurrence at position `i` witnesses containment. */
  lemma {:induction false} ContainsAt(s: string, sub: string, i: nat)
    requires i <= |s| && StartsWith(s[i..], sub)
    ensures Contains(s, sub)
    decreases i
  {
    if i > 0 {
      assert s[1..][i - 1..] == s[i..];
      ContainsAt(s[1..], sub, i - 1);
    }
  }

  /** Containment means an occurrence at some position. */
  lemma {:induction false} ContainsWitness(s: string, sub: string) returns (i: nat)
    requires Contains(s, sub)
    ensures i + |sub| <= |s| && s[i..i + |sub|] == sub
    decreases |s|
  {
    if StartsWith(s, sub) {
      i := 0;
    } else {
      var j := ContainsWitness(s[1..], sub);
      assert s[1..][j..j + |sub|] == s[j + 1..j + 1 + |sub|];
      i := j + 1;
    }
  }

  /** Exact equality with a command implies containment of its `slice(1)`. */
  lemma ContainsSliceFromOne(c: string)
    ensures Contains(c, SliceFromOne(c))
  {
    if c == [] {
      assert StartsWith(c, []);
    } else {
      ContainsAt(c, c[1..], 1);
    }
  }

  /** A substring holding a character that `s` lacks does not occur in `s`. */
  lemma {:induction false} NotContainsChar(s: string, sub: string, c: char)
    requires c !in s && c in sub
    ensures !Contains(s, sub)
    decreases |s|
  {
    if s != [] {
      NotContainsChar(s[1..], sub, c);
    }
  }

  // ---------------------------------------------------------------------
  // Trim

  /** A blank string trims to nothing, and only a blank one does. */
  lemma BlankIffTrimsToEmpty(s: string)
    ensures IsBlank(s) <==> Trim(s) == []
  {
    var t := TrimStart(s);
    TrimStartShape(s);
    TrimEndShape(t);
    if Trim(s) == [] {
      assert t == [];
      assert s[..|s|] == s;
    }
  }

  /** `s` is a blank prefix followed by `TrimStart(s)`, which does not start with whitespace. */
  lemma {:induction false} TrimStartShape(s: string)
    ensures |TrimStart(s)| <= |s| && TrimStart(s) == s[|s| - |TrimStart(s)|..]
    ensures IsBlank(s[..|s| - |TrimStart(s)|])
    ensures TrimStart(s) == [] || !IsWhitespace(TrimStart(s)[0])
    decreases |s|
  {
    if s != [] && IsWhitespace(s[0]) {
      TrimStartShape(s[1..]);
      var k := |s| - |TrimStart(s)|;
      assert s[1..][k - 1..] == s[k..];
      assert forall i :: 1 <= i < k ==> s[..k][i] == s[1..][..k - 1][i - 1];
    }
  }

  /** `s` is `TrimEnd(s)` followed by a blank suffix, and `TrimEnd(s)` does not end with whitespace. */
  lemma {:induction false} TrimEndShape(s: string)
    ensures |TrimEnd(s)| <= |s| && TrimEnd(s) == s[..|TrimEnd(s)|]
    ensures IsBlank(s[|TrimEnd(s)|..])
    ensures TrimEnd(s) == [] || !IsWhitespace(TrimEnd(s)[|TrimEnd(s)| - 1])
    decreases |s|
  {
    if s != [] && IsWhitespace(s[|s| - 1]) {
      var u := s[..|s| - 1];
      TrimEndShape(u);
      var k := |TrimEnd(s)|;
      assert u[..k] == s[..k];
      assert s[k..] == u[k..] + [s[|s| - 1]];
      forall i | 0 <= i < |s| - k ensures IsWhitespace(s[k..][i]) {
        if i < |u| - k {
          assert s[k..][i] == u[k..][i];
        }
      }
    }
  }

  /** `!s.trim()`: the string trims to nothing, which is exactly when it is blank. */
  function TrimsToEmpty(s: string): (b: bool)
    ensures b <==> IsBlank(s)
  {
    BlankIffTrimsToEmpty(s);
    Trim(s) == []
  }

  /** The trimmed string neither starts nor ends with whitespace. */
  lemma TrimHasNoSurroundingWhitespace(s: string)
    ensures Trim(s) == [] || (!IsWhitespace(Trim(s)[0]) && !IsWhitespace(Trim(s)[|Trim(s)| - 1]))
  {
    var t := TrimStart(s);
    var r := TrimEnd(t);
    TrimStartShape(s);
    TrimEndShape(t);
    if r != [] {
      assert r == t[..|r|];
    }
  }

  /** The trimmed string is what is left of `s` once a blank prefix and a blank suffix are cut off. */
  lemma TrimSurroundedByBlanks(s: string) returns (a: string, b: string)
    ensures s == a + Trim(s) + b && IsBlank(a) && IsBlank(b)
  {
    var t := TrimStart(s);
    TrimStartShape(s);
    TrimEndShape(t);
    a := s[..|s| - |t|];
    b := t[|Trim(s)|..];
    assert t == Trim(s) + b;
    assert s == a + t;
  }

  /** Trimming twice is trimming once. */
  lemma TrimIdempotent(s: string)
    ensures Trim(Trim(s)) == Trim(s)
  {
    TrimHasNoSurroundingWhitespace(s);
  }

  /** Leading blanks are removed by TrimStart. */
  lemma {:induction false} TrimStartSkipsBlank(a: string, t: string)
    requires IsBlank(a)
    ensures TrimStart(a + t) == TrimStart(t)
    decreases |a|
  {
    if a != [] {
      assert IsWhitespace((a + t)[0]) by { assert (a + t)[0] == a[0]; }
      assert TrimStart(a + t) == TrimStart((a + t)[1..]);
      assert (a + t)[1..] == a[1..] + t;
      assert IsBlank(a[1..]) by {
        assert forall i :: 0 <= i < |a| - 1 ==> a[1..][i] == a[i + 1];
      }
      TrimStartSkipsBlank(a[1..], t);
    } else {
      assert a + t == t;
    }
  }

  /** Trailing blanks are removed by TrimEnd. */
  lemma {:induction false} TrimEndSkipsBlank(t: string, b: string)
    requires IsBlank(b)
    ensures TrimEnd(t + b) == TrimEnd(t)
    decreases |b|
  {
    if b != [] {
      assert IsWhitespace((t + b)[|t + b| - 1]) by { assert (t + b)[|t + b| - 1] == b[|b| - 1]; }
      assert TrimEnd(t + b) == TrimEnd((t + b)[..|t + b| - 1]);
      assert (t + b)[..|t + b| - 1] == t + b[..|b| - 1];
      assert IsBlank(b[..|b| - 1]) by {
        assert forall i :: 0 <= i < |b| - 1 ==> b[..|b| - 1][i] == b[i];
      }
      TrimEndSkipsBlank(t, b[..|b| - 1]);
    } else {
      assert t + b == t;
    }
  }

  /** TrimStart of a non-blank string does not reach what follows it. */
  lemma {:induction false} TrimStartAppend(s: string, b: string)
    requires !IsBlank(s)
    ensures TrimStart(s + b) == TrimStart(s) + b
    decreases |s|
  {
    assert s != [];
    if IsWhitespace(s[0]) {
      assert (s + b)[1..] == s[1..] + b;
      assert !IsBlank(s[1..]) by {
        var i :| 0 <= i < |s| && !IsWhitespace(s[i]);
        assert s[1..][i - 1] == s[i];
      }
      TrimStartAppend(s[1..], b);
    }
  }

  /** Whitespace around a string does not change its trimmed form. */
  lemma TrimIgnoresSurroundingBlanks(a: string, s: string, b: string)
    requires IsBlank(a) && IsBlank(b)
    ensures Trim(a + s + b) == Trim(s)
  {
    assert a + s + b == a + (s + b);
    TrimStartSkipsBlank(a, s + b);
    if IsBlank(s) {
      assert IsBlank(s + b) by {
        forall i | 0 <= i < |s + b| ensures IsWhitespace((s + b)[i]) {
          if i >= |s| { assert (s + b)[i] == b[i - |s|]; }
        }
      }
      BlankIffTrimsToEmpty(s + b);
      BlankIffTrimsToEmpty(s);
    } else {
      TrimStartAppend(s, b);
      TrimEndSkipsBlank(TrimStart(s), b);
    }
  }

  /** A string that neither starts nor ends with whitespace is its own trim. */
  lemma TrimUnpadded(s: string)
    requires s != [] ==> !IsWhitespace(s[0]) && !IsWhitespace(s[|s| - 1])
    ensures Trim(s) == s
  {
  }

  // ---------------------------------------------------------------------
  // Lower

  /** Lower-casing twice is lower-casing once. */
  lemma LowerIdempotent(s: string)
    ensures Lower(Lower(s)) == Lower(s)
  {
  }

  /** A string without ASCII capitals is its own lower-case form. */
  lemma LowerNoCapitals(s: string)
    requires forall i :: 0 <= i < |s| ==> !('A' <= s[i] <= 'Z')
    ensures Lower(s) == s
  {
  }

  /** Lower-casing distributes over concatenation. */
  lemma LowerAppend(a: string, b: string)
    ensures Lower(a + b) == Lower(a) + Lower(b)
  {
    assert forall i :: 0 <= i < |a + b| ==> Lower(a + b)[i] == (Lower(a) + Lower(b))[i];
  }

  /** Lower-casing leaves whitespace alone. */
  lemma LowerBlank(a: string)
    requires IsBlank(a)
    ensures Lower(a) == a
  {
    assert forall i :: 0 <= i < |a| ==> Lower(a)[i] == a[i];
  }

  /** Lower-casing neither creates nor removes whitespace. */
  lemma LowerCharWhitespace(c: char)
    ensures IsWhitespace(LowerChar(c)) <==> IsWhitespace(c)
  {
  }

  /** Lower-casing and trimming commute, since a character is whitespace iff its lower-case form is. */
  lemma {:induction false} TrimStartLower(s: string)
    ensures TrimStart(Lower(s)) == Lower(TrimStart(s))
    decreases |s|
  {
    if s != [] {
      LowerCharWhitespace(s[0]);
      assert Lower(s)[0] == LowerChar(s[0]);
      assert Lower(s)[1..] == Lower(s[1..]);
      TrimStartLower(s[1..]);
    }
  }

  lemma {:induction false} TrimEndLower(s: string)
    ensures TrimEnd(Lower(s)) == Lower(TrimEnd(s))
    decreases |s|
  {
    if s != [] {
      LowerCharWhitespace(s[|s| - 1]);
      assert Lower(s)[|s| - 1] == LowerChar(s[|s| - 1]);
      assert Lower(s)[..|s| - 1] == Lower(s[..|s| - 1]);
      TrimEndLower(s[..|s| - 1]);
    }
  }

  lemma TrimLower(s: string)
    ensures Trim(Lower(s)) == Lower(Trim(s))
  {
    TrimStartLower(s);
    TrimEndLower(TrimStart(s));
  }
}
