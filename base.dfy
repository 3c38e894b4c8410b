/** Shared vocabulary of the model: optional values, results with an error
    message, bytes, JavaScript numbers that may be NaN, object slots used as
    counters, and the string helpers the browser code relies on
    (toLowerCase, lastIndexOf, split, padStart, trim, number printing,
    hexadecimal digests). */
module Base {

  datatype Option<T> = None | Some(value: T)

  /** A computation that either produced a value or threw with a message. */
  datatype Result<T> = Ok(value: T) | Err(msg: string)

  type Byte = b: int | 0 <= b < 256

  /** A JavaScript number: a finite value or NaN (0/0 and friends). */
  datatype Num = Fin(r: real) | NaN

  /** The value held under one key of a plain object used as a counter:
      the key is absent (`undefined`), holds a number, or holds NaN
      (what `undefined++` and `undefined + n` produce). */
  datatype Slot = Absent | Count(n: int) | NaNSlot

  /** `obj[key] += k` (and `obj[key]++` for k = 1) on one slot. */
  function Bump(s: Slot, k: int): (r: Slot)
    ensures s.Count? <==> r.Count?
    ensures s.Count? ==> r.n == s.n + k
  {
    match s
    case Count(n) => Count(n + k)
    case _ => NaNSlot
  }

  /** Whether a counter slot is truthy in JavaScript: a non-zero number
      (`undefined`, 0 and NaN are falsy). */
  predicate Truthy(s: Slot)
  {
    s.Count? && s.n != 0
  }

  /** The names every object literal inherits from `Object.prototype`. A
      lookup `obj[key]` on a literal with no own property `key` finds the
      member of that name (a function, or the prototype object itself for
      `__proto__`), which is truthy. */
  const PrototypeMembers: seq<string> := ["constructor", "__proto__", "__defineGetter__", "__defineSetter__",
                                          "__lookupGetter__", "__lookupSetter__", "hasOwnProperty", "isPrototypeOf",
                                          "propertyIsEnumerable", "toLocaleString", "toString", "valueOf"]

  /** What `table[key] || fallback` yields on an object literal of strings:
      a string, or an inherited `Object.prototype` member. */
  datatype Looked = Text(s: string) | InheritedMember(name: string)

  /** `table[key] || fallback` on an object literal, given whether `key` is
      an own property and the string the own properties give (the entry, or
      the fallback): a key that is not an own property but names an
      `Object.prototype` member finds that member instead. */
  function WithPrototype(isOwn: bool, key: string, own: string): Looked
  {
    if !isOwn && key in PrototypeMembers then InheritedMember(key) else Text(own)
  }

  /** The lookup gives the own string exactly when the key is an own
      property or names no inherited member. */
  lemma WithPrototypeAgrees(isOwn: bool, key: string, own: string)
    ensures WithPrototype(isOwn, key, own) == Text(own) <==> isOwn || key !in PrototypeMembers
  {
  }

  function Min(a: int, b: int): int { if a <= b then a else b }
  function Max(a: int, b: int): int { if a >= b then a else b }
  function MinR(a: real, b: real): real { if a <= b then a else b }
  function MaxR(a: real, b: real): real { if a >= b then a else b }

  /** JavaScript's `%` on integers: the remainder of division truncated
      toward zero, so it takes the sign of the dividend. */
  function JsRem(a: int, b: int): (r: int)
    requires b > 0
    ensures a >= 0 ==> r == a % b
    ensures -b < r < b
  {
    if a >= 0 then a % b else -((-a) % b)
  }

  /** `Math.round`: halves round up. */
  function Round(x: real): int { (x + 0.5).Floor }

  // ---------------------------------------------------------------------
  // Characters and strings

  /** `toLowerCase` restricted to ASCII letters. */
  function LowerChar(c: char): char
  {
    if 'A' <= c <= 'Z' then (c as int + 32) as char else c
  }

  function Lower(s: string): (r: string)
    ensures |r| == |s|
    ensures forall i :: 0 <= i < |s| ==> r[i] == LowerChar(s[i])
  {
    if s == [] then [] else [LowerChar(s[0])] + Lower(s[1..])
  }

  /** Lower-casing commutes with dropping a prefix. */
  lemma LowerDrop(s: string, k: nat)
    requires k <= |s|
    ensures Lower(s)[k..] == Lower(s[k..])
  {
  }

  /** A character that is not a lower-case letter appears in `Lower(s)`
      only where it appears in `s`. */
  lemma LowerKeepsAbsent(s: string, c: char)
    requires c !in s && !('a' <= c <= 'z')
    ensures c !in Lower(s)
  {
    forall i | 0 <= i < |s| ensures Lower(s)[i] != c {
      assert s[i] != c;
    }
  }

  /** Text without upper-case letters is its own lower case. */
  lemma LowerIdentity(s: string)
    requires forall i :: 0 <= i < |s| ==> !('A' <= s[i] <= 'Z')
    ensures Lower(s) == s
  {
  }

  lemma {:induction false} LowerAppend(a: string, b: string)
    ensures Lower(a + b) == Lower(a) + Lower(b)
  {
    if a == [] {
      assert a + b == b;
    } else {
      assert (a + b)[0] == a[0] && (a + b)[1..] == a[1..] + b;
      LowerAppend(a[1..], b);
    }
  }

  /** `s.lastIndexOf(c)`: -1 when c does not occur. */
  function LastIndexOf(s: string, c: char): (r: int)
    ensures -1 <= r < |s|
    ensures r >= 0 ==> s[r] == c
    ensures forall j :: r < j < |s| ==> s[j] != c
  {
    if s == [] then -1
    else if s[|s| - 1] == c then |s| - 1
    else LastIndexOf(s[..|s| - 1], c)
  }

  /** `s.indexOf(c)`: -1 when c does not occur. */
  function IndexOf(s: string, c: char): (r: int)
    ensures -1 <= r < |s|
    ensures r >= 0 ==> s[r] == c
    ensures forall j :: 0 <= j < |s| && (r < 0 || j < r) ==> s[j] != c
  {
    if s == [] then -1
    else if s[0] == c then 0
    else var k := IndexOf(s[1..], c); if k < 0 then -1 else k + 1
  }

  /** `s.split(c).pop()`: the text after the last c, or all of s. */
  function AfterLast(s: string, c: char): (r: string)
    ensures c !in r
    ensures c !in s ==> r == s
  {
    s[LastIndexOf(s, c) + 1..]
  }

  lemma AfterLastOfJoin(a: string, c: char, b: string)
    requires c !in b
    ensures AfterLast(a + [c] + b, c) == b
  {
    var s := a + [c] + b;
    assert s[|a|] == c;
    assert forall j :: |a| < j < |s| ==> s[j] == b[j - |a| - 1];
    assert LastIndexOf(s, c) == |a|;
    assert s[|a| + 1..] == b;
  }

  /** `name.toLowerCase().substring(name.lastIndexOf('.'))`: the lower-cased
      name from its last '.', or the whole lower-cased name when there is
      none (`substring` treats -1 as 0). */
  function Extension(name: string): (ext: string)
    ensures '.' !in name ==> ext == Lower(name)
    ensures '.' in name ==> |ext| >= 1 && ext[0] == '.' && '.' !in ext[1..]
  {
    var k := LastIndexOf(name, '.');
    assert '.' in name ==> k >= 0 && Lower(name)[k] == '.';
    Lower(name)[Max(k, 0)..]
  }

  /** The last '.' of `stem + ext` is the first character of `ext` when
      that is its only '.'. */
  lemma LastDotOfJoin(stem: string, ext: string)
    requires |ext| >= 1 && ext[0] == '.' && '.' !in ext[1..]
    ensures LastIndexOf(stem + ext, '.') == |stem|
  {
    var s := stem + ext;
    assert s[|stem|] == '.';
    forall j | |stem| < j < |s| ensures s[j] != '.' {
      assert s[j] == ext[1..][j - |stem| - 1];
    }
  }

  /** The extension of `stem + ext` is `ext` lower-cased, whatever the stem. */
  lemma ExtensionOfJoin(stem: string, ext: string)
    requires |ext| >= 1 && ext[0] == '.' && '.' !in ext[1..]
    ensures Extension(stem + ext) == Lower(ext)
  {
    LastDotOfJoin(stem, ext);
    LowerAppend(stem, ext);
    assert Lower(stem + ext)[|stem|..] == Lower(ext);
  }

  /** `s.split(c)` with a one-character separator. */
  function Split(s: string, c: char): (r: seq<string>)
    ensures |r| >= 1
    ensures forall i :: 0 <= i < |r| ==> c !in r[i]
    decreases |s|
  {
    var k := IndexOf(s, c);
    if k < 0 then [s]
    else
      var rest := Split(s[k + 1..], c);
      SplitPiece(s, c, k, rest);
      [s[..k]] + rest
  }

  lemma SplitPiece(s: string, c: char, k: int, rest: seq<string>)
    requires 0 <= k < |s|
    requires forall j :: 0 <= j < k ==> s[j] != c
    requires forall i :: 0 <= i < |rest| ==> c !in rest[i]
    ensures forall i :: 0 <= i < |[s[..k]] + rest| ==> c !in ([s[..k]] + rest)[i]
  {
    var r := [s[..k]] + rest;
    forall i | 0 <= i < |r| ensures c !in r[i] {
      if i == 0 {
        assert r[0] == s[..k];
      } else {
        assert r[i] == rest[i - 1];
      }
    }
  }

  lemma SplitJoin(a: string, c: char, b: string)
    requires c !in a
    ensures Split(a + [c] + b, c) == [a] + Split(b, c)
  {
    var s := a + [c] + b;
    assert s[|a|] == c;
    assert forall j :: 0 <= j < |a| ==> s[j] == a[j];
    var k := IndexOf(s, c);
    assert k == |a|;
    assert s[..k] == a;
    assert s[k + 1..] == b;
  }

  lemma SplitNoSep(a: string, c: char)
    ensures c !in a ==> Split(a, c) == [a]
  {
    if c !in a { assert IndexOf(a, c) < 0; }
  }

  predicate StartsWith(s: string, p: string) { |p| <= |s| && s[..|p|] == p }

  predicate EndsWith(s: string, p: string) { |p| <= |s| && s[|s| - |p|..] == p }

  /** `s.replace(/c/g, rep)`: every occurrence of c replaced by rep. */
  function ReplaceAll(s: string, c: char, rep: string): (r: string)
    ensures c !in rep ==> c !in r
  {
    if s == [] then []
    else (if s[0] == c then rep else [s[0]]) + ReplaceAll(s[1..], c, rep)
  }

  lemma ReplaceAllAppend(a: string, b: string, c: char, rep: string)
    ensures ReplaceAll(a + b, c, rep) == ReplaceAll(a, c, rep) + ReplaceAll(b, c, rep)
  {
    if a == [] {
      assert a + b == b;
    } else {
      assert (a + b)[0] == a[0];
      assert (a + b)[1..] == a[1..] + b;
      ReplaceAllAppend(a[1..], b, c, rep);
    }
  }

  /** `String.prototype.trim` for text whose only whitespace is ' '. */
  function TrimEnd(s: string): (r: string)
    ensures |r| <= |s| && r == s[..|r|]
    ensures r == [] || r[|r| - 1] != ' '
    ensures forall i :: |r| <= i < |s| ==> s[i] == ' '
  {
    if s == [] || s[|s| - 1] != ' ' then s else TrimEnd(s[..|s| - 1])
  }

  function TrimStart(s: string): (r: string)
    ensures |r| <= |s| && r == s[|s| - |r|..]
    ensures r == [] || r[0] != ' '
  {
    if s == [] || s[0] != ' ' then s else TrimStart(s[1..])
  }

  function Trim(s: string): string { TrimStart(TrimEnd(s)) }

  /** `String(s).padStart(n, c)`. */
  function PadStart(s: string, n: nat, c: char): (r: string)
    ensures |r| == Max(|s|, n)
    ensures EndsWith(r, s)
    ensures forall i :: 0 <= i < |r| - |s| ==> r[i] == c
    decreases n - |s|
  {
    if |s| >= n then s
    else
      var r := PadStart([c] + s, n, c);
      assert r[|r| - |s| - 1..] == [c] + s;
      assert r[|r| - |s|..] == ([c] + s)[1..];
      r
  }

  // ---------------------------------------------------------------------
  // Numbers as text

  function Digit(d: nat): (c: char)
    requires d < 10
    ensures '0' <= c <= '9'
  {
    "0123456789"[d]
  }

  predicate IsDigit(c: char) { '0' <= c <= '9' }

  /** Decimal text of a natural number, as JavaScript prints it. */
  function NatToString(n: nat): (r: string)
    ensures |r| >= 1
    ensures forall i :: 0 <= i < |r| ==> IsDigit(r[i])
  {
    if n < 10 then [Digit(n)] else NatToString(n / 10) + [Digit(n % 10)]
  }

  function IntToString(i: int): string
  {
    if i < 0 then "-" + NatToString(-i) else NatToString(i)
  }

  /** Value of a run of decimal digits (leading zeros allowed). */
  function ParseDigits(s: string): int
    requires forall i :: 0 <= i < |s| ==> IsDigit(s[i])
  {
    if s == [] then 0
    else ParseDigits(s[..|s| - 1]) * 10 + (s[|s| - 1] as int - '0' as int)
  }

  lemma {:induction false} ParseNatToString(n: nat)
    ensures ParseDigits(NatToString(n)) == n
  {
    var s := NatToString(n);
    if n >= 10 {
      ParseNatToString(n / 10);
      assert s[..|s| - 1] == NatToString(n / 10);
      assert "0123456789"[n % 10] as int - '0' as int == n % 10;
    } else {
      assert "0123456789"[n] as int - '0' as int == n;
    }
  }

  lemma {:induction false} ParseLeadingZeros(z: string, s: string)
    requires forall i :: 0 <= i < |z| ==> z[i] == '0'
    requires forall i :: 0 <= i < |s| ==> IsDigit(s[i])
    ensures forall i :: 0 <= i < |z + s| ==> IsDigit((z + s)[i])
    ensures ParseDigits(z + s) == ParseDigits(s)
  {
    if s == [] {
      assert z + s == z;
      ZerosParseToZero(z);
    } else {
      var t := s[..|s| - 1];
      assert (z + s)[..|z + s| - 1] == z + t;
      ParseLeadingZeros(z, t);
    }
  }

  lemma {:induction false} ZerosParseToZero(z: string)
    requires forall i :: 0 <= i < |z| ==> z[i] == '0'
    ensures ParseDigits(z) == 0
  {
    if z != [] { ZerosParseToZero(z[..|z| - 1]); }
  }

  // ---------------------------------------------------------------------
  // Hexadecimal digests: `Array.from(bytes).map(b => b.toString(16).padStart(2, '0')).join('')`

  predicate IsHexDigit(c: char) { '0' <= c <= '9' || 'a' <= c <= 'f' }

  function HexDigit(d: nat): (c: char)
    requires d < 16
    ensures IsHexDigit(c)
  {
    "0123456789abcdef"[d]
  }

  /** `b.toString(16)`. */
  function ByteToHex(b: Byte): (r: string)
    ensures 1 <= |r| <= 2
    ensures forall i :: 0 <= i < |r| ==> IsHexDigit(r[i])
  {
    if b < 16 then [HexDigit(b)] else [HexDigit(b / 16), HexDigit(b % 16)]
  }

  /** `b.toString(16).padStart(2, '0')`: always two hexadecimal digits. */
  function ByteHex(b: Byte): (r: string)
    ensures |r| == 2 && IsHexDigit(r[0]) && IsHexDigit(r[1])
  {
    var hb := ByteToHex(b);
    var r := PadStart(hb, 2, '0');
    assert r == if |hb| == 2 then hb else ['0'] + hb;
    r
  }

  function HexEncode(bytes: seq<Byte>): (r: string)
    ensures |r| == 2 * |bytes|
    ensures forall i :: 0 <= i < |r| ==> IsHexDigit(r[i])
  {
    if bytes == [] then [] else ByteHex(bytes[0]) + HexEncode(bytes[1..])
  }

  // ---------------------------------------------------------------------
  // Typed arrays

  /** The contents of an array after `set(src, offset)`. */
  function Overwrite(s: seq<Byte>, src: seq<Byte>, offset: nat): (r: seq<Byte>)
    requires offset + |src| <= |s|
    ensures |r| == |s|
    ensures forall j :: 0 <= j < |s| ==> r[j] == if offset <= j < offset + |src| then src[j - offset] else s[j]
  {
    s[..offset] + src + s[offset + |src|..]
  }

  /** Three `set` calls that cover the array back to back leave exactly the
      three pieces, in order, whatever it held before. */
  lemma OverwriteThree(s: seq<Byte>, a: seq<Byte>, b: seq<Byte>, c: seq<Byte>)
    requires |s| == |a| + |b| + |c|
    ensures Overwrite(Overwrite(Overwrite(s, a, 0), b, |a|), c, |a| + |b|) == a + b + c
  {
    var r := Overwrite(Overwrite(Overwrite(s, a, 0), b, |a|), c, |a| + |b|);
    forall j | 0 <= j < |s| ensures r[j] == (a + b + c)[j] {
      if j < |a| {
      } else if j < |a| + |b| {
      } else {
      }
    }
  }

  /** `a.set(src, offset)` on a `Uint8Array`: copy `src` into `a` from
      `offset` on, leaving every other element as it was. */
  method ArraySet(a: array<Byte>, src: seq<Byte>, offset: nat)
    requires offset + |src| <= a.Length
    modifies a
    ensures a[..] == Overwrite(old(a[..]), src, offset)
  {
    for k := 0 to |src|
      invariant forall j :: 0 <= j < a.Length ==>
        a[j] == if offset <= j < offset + k then src[j - offset] else old(a[j])
    {
      a[offset + k] := src[k];
    }
  }
}
