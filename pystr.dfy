/** The few Python string builtins the script relies on, on `seq<char>`. */
module PyStr {

  /** The characters for which Python's str.isspace() holds: what strip() and
      rstrip() remove when called without arguments. */
  const Whitespace: set<char> :=
    {' ', '\t', '\n', '\r', '\U{B}', '\U{C}', '\U{1C}', '\U{1D}', '\U{1E}', '\U{1F}',
     '\U{85}', '\U{A0}', '\U{1680}', '\U{2000}', '\U{2001}', '\U{2002}', '\U{2003}',
     '\U{2004}', '\U{2005}', '\U{2006}', '\U{2007}', '\U{2008}', '\U{2009}', '\U{200A}',
     '\U{2028}', '\U{2029}', '\U{202F}', '\U{205F}', '\U{3000}'}

  /** s.rstrip() */
  function Rstrip(s: string): string
  {
    if s != [] && s[|s| - 1] in Whitespace then Rstrip(s[..|s| - 1]) else s
  }

  /** s.lstrip() */
  function Lstrip(s: string): string
  {
    if s != [] && s[0] in Whitespace then Lstrip(s[1..]) else s
  }

  /** rstrip() keeps the longest prefix that is followed by whitespace only. */
  lemma {:induction false} RstripSpec(s: string)
    ensures Rstrip(s) <= s
    ensures Rstrip(s) == [] || Rstrip(s)[|Rstrip(s)| - 1] !in Whitespace
    ensures forall i | |Rstrip(s)| <= i < |s| :: s[i] in Whitespace
  {
    if s != [] && s[|s| - 1] in Whitespace {
      RstripSpec(s[..|s| - 1]);
    }
  }

  /** lstrip() keeps the longest suffix that is preceded by whitespace only. */
  lemma {:induction false} LstripSpec(s: string)
    ensures |Lstrip(s)| <= |s| && Lstrip(s) == s[|s| - |Lstrip(s)|..]
    ensures Lstrip(s) == [] || Lstrip(s)[0] !in Whitespace
    ensures forall i | 0 <= i < |s| - |Lstrip(s)| :: s[i] in Whitespace
  {
    if s != [] && s[0] in Whitespace {
      LstripSpec(s[1..]);
    }
  }

  /** s.strip(): whitespace removed from both ends. */
  function Strip(s: string): string
  {
    Lstrip(Rstrip(s))
  }

  /** strip() keeps a run of the characters of s, no longer than s, with no
      whitespace at either end. */
  lemma StripSpec(s: string)
    ensures |Strip(s)| <= |s|
    ensures forall c | c in Strip(s) :: c in s
    ensures Strip(s) == [] || (Strip(s)[0] !in Whitespace && Strip(s)[|Strip(s)| - 1] !in Whitespace)
  {
    var r := Rstrip(s);
    var k := Lstrip(r);
    RstripSpec(s);
    LstripSpec(r);
    assert k == r[|r| - |k|..];
    forall c | c in k ensures c in s {
      var i :| 0 <= i < |k| && k[i] == c;
      assert k[i] == r[|r| - |k| + i] == s[|r| - |k| + i];
    }
    if k != [] {
      assert k[|k| - 1] == r[|r| - 1];
    }
  }

  /** Upper case of one character, for the ASCII letters. */
  function UpperChar(c: char): char
  {
    if 'a' <= c <= 'z' then (c as int - 32) as char else c
  }

  /** s.upper() on ASCII text. */
  function Upper(s: string): string
  {
    seq(|s|, i requires 0 <= i < |s| => UpperChar(s[i]))
  }

  /** upper() leaves no ASCII lower-case letter and keeps the length. */
  lemma UpperSpec(s: string)
    ensures |Upper(s)| == |s|
    ensures forall c | c in Upper(s) :: !('a' <= c <= 'z')
  {
    forall c | c in Upper(s) ensures !('a' <= c <= 'z') {
      var i :| 0 <= i < |s| && Upper(s)[i] == c;
    }
  }

  /** ''.join(parts) */
  function Join(parts: seq<string>): string
  {
    if parts == [] then [] else Join(parts[..|parts| - 1]) + parts[|parts| - 1]
  }

  /** Joining two lists of parts in a row is joining each and concatenating:
      `''.join` adds nothing between or around the parts. */
  lemma {:induction false} JoinAppend(a: seq<string>, b: seq<string>)
    ensures Join(a + b) == Join(a) + Join(b)
    decreases |b|
  {
    if b == [] {
      assert a + b == a;
    } else {
      var n := |b| - 1;
      JoinAppend(a, b[..n]);
      assert (a + b)[..|a + b| - 1] == a + b[..n];
    }
  }

  predicate IsDigit(c: char)
  {
    '0' <= c <= '9'
  }

  function DigitChar(d: nat): (c: char)
    requires d < 10
    ensures IsDigit(c)
  {
    ('0' as int + d) as char
  }

  /** str(n) for a natural number: its decimal digits, most significant first. */
  function Decimal(n: nat): (r: string)
    ensures 0 < |r| && forall i | 0 <= i < |r| :: IsDigit(r[i])
    ensures (n < 10) == (|r| == 1)
    decreases n
  {
    if n < 10 then [DigitChar(n)] else Decimal(n / 10) + [DigitChar(n % 10)]
  }

  /** The number a string of decimal digits spells, most significant digit first. */
  function DigitsValue(t: string): nat
    requires forall i | 0 <= i < |t| :: IsDigit(t[i])
  {
    if t == [] then 0
    else
      assert IsDigit(t[|t| - 1]);
      DigitsValue(t[..|t| - 1]) * 10 + (t[|t| - 1] as int - '0' as int)
  }

  /** str(n) spells n, without a leading zero unless n is 0. */
  lemma {:induction false} DecimalValue(n: nat)
    ensures DigitsValue(Decimal(n)) == n
    ensures 0 < n ==> Decimal(n)[0] != '0'
    decreases n
  {
    if 10 <= n {
      var r := Decimal(n);
      assert r[..|r| - 1] == Decimal(n / 10);
      DecimalValue(n / 10);
      assert r[0] == Decimal(n / 10)[0];
    }
  }

  /** Different numbers print differently, so keys such as "seq{i}" never collide. */
  lemma DecimalInjective(m: nat, n: nat)
    requires Decimal(m) == Decimal(n)
    ensures m == n
  {
    DecimalValue(m);
    DecimalValue(n);
  }

  /** s.split(' ')[0]: everything before the first space (all of s if none). */
  function FirstField(s: string): (r: string)
    ensures r <= s && ' ' !in r
    ensures |r| < |s| ==> s[|r|] == ' '
  {
    if s == [] || s[0] == ' ' then [] else [s[0]] + FirstField(s[1..])
  }
}
