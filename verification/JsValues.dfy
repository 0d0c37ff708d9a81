/** The few JavaScript notions the models share: optional values, object properties and string helpers. */
module JsValues {

  /** A value that may be missing (`null`, or a promise that resolved to `null`). */
  datatype Option<+T> = None | Some(value: T)

  /** What reading a property yields: `undefined`, or a value. */
  datatype Slot<+T> = Undefined | Value(value: T)

  /** A property of an object as the three tests `key in o`, `o.key !== undefined` and `o.key` see it. */
  datatype Prop<+T> = Absent | PresentUndefined | Present(value: T)

  /** `o.key`: an absent property reads as `undefined`. */
  function Read<T>(p: Prop<T>): Slot<T> {
    if p.Present? then Value(p.value) else Undefined
  }

  /** `a ?? b` for two property reads. */
  function OrElse<T>(a: Slot<T>, b: Slot<T>): Slot<T> {
    if a.Value? then a else b
  }

  /** White space and line terminators as `String.prototype.trim` counts them. */
  predicate IsSpace(c: char) {
    || c in {'\t', '\n', '\r', ' ', '\U{000B}', '\U{000C}', '\U{00A0}', '\U{1680}',
             '\U{2028}', '\U{2029}', '\U{202F}', '\U{205F}', '\U{3000}', '\U{FEFF}'}
    || '\U{2000}' <= c <= '\U{200A}'
  }

  /** By code point: the white space and line terminators of sections 12.2 and 12.3 of ECMA-262. */
  lemma IsSpaceExact(c: char)
    ensures var n := c as int;
      IsSpace(c) <==>
        || 0x9 <= n <= 0xD || n == 0x20 || n == 0xA0 || n == 0x1680 || 0x2000 <= n <= 0x200A
        || n == 0x2028 || n == 0x2029 || n == 0x202F || n == 0x205F || n == 0x3000 || n == 0xFEFF
  {
  }

  function TrimStart(s: string): string {
    if s == [] || !IsSpace(s[0]) then s else TrimStart(s[1..])
  }

  function TrimEnd(s: string): string {
    if s == [] || !IsSpace(s[|s| - 1]) then s else TrimEnd(s[..|s| - 1])
  }

  function Trim(s: string): string {
    TrimEnd(TrimStart(s))
  }

  lemma {:induction false} TrimEndShape(s: string)
    ensures TrimEnd(s) <= s
    ensures TrimEnd(s) != [] ==> !IsSpace(TrimEnd(s)[|TrimEnd(s)| - 1])
  {
    if s != [] && IsSpace(s[|s| - 1]) {
      var init := s[..|s| - 1];
      TrimEndShape(init);
      assert TrimEnd(s) == TrimEnd(init) && init <= s;
    }
  }

  lemma {:induction false} TrimStartShape(s: string)
    ensures TrimStart(s) != [] ==> !IsSpace(TrimStart(s)[0])
  {
    if s != [] && IsSpace(s[0]) {
      TrimStartShape(s[1..]);
    }
  }

  predicate AllSpace(s: string) {
    forall c :: c in s ==> IsSpace(c)
  }

  lemma {:induction false} TrimEndCuts(s: string)
    ensures TrimEnd(s) <= s && AllSpace(s[|TrimEnd(s)|..])
  {
    if s != [] && IsSpace(s[|s| - 1]) {
      var init := s[..|s| - 1];
      TrimEndCuts(init);
      assert s[|TrimEnd(s)|..] == init[|TrimEnd(init)|..] + [s[|s| - 1]];
    }
  }

  lemma {:induction false} TrimStartCuts(s: string)
    ensures |TrimStart(s)| <= |s| && TrimStart(s) == s[|s| - |TrimStart(s)|..]
    ensures AllSpace(s[..|s| - |TrimStart(s)|])
  {
    if s != [] && IsSpace(s[0]) {
      TrimStartCuts(s[1..]);
      var n := |s| - |TrimStart(s)|;
      assert s[..n] == [s[0]] + s[1..][..n - 1] && s[1..][n - 1..] == s[n..];
    }
  }

  /** White space, the middle, white space. */
  predicate Padded(s: string, a: string, middle: string, b: string) {
    s == a + middle + b && AllSpace(a) && AllSpace(b)
  }

  /** Trimming cuts white space off both ends, and all of it. */
  lemma TrimExact(s: string)
    ensures exists a, b :: Padded(s, a, Trim(s), b)
    ensures Trim(s) != "" ==> !IsSpace(Trim(s)[0]) && !IsSpace(Trim(s)[|Trim(s)| - 1])
  {
    TrimStartCuts(s);
    TrimStartShape(s);
    TrimEndCuts(TrimStart(s));
    TrimEndShape(TrimStart(s));
    TwoCuts(s, TrimStart(s), Trim(s));
  }

  lemma TwoCuts(s: string, rest: string, middle: string)
    requires |rest| <= |s| && rest == s[|s| - |rest|..] && AllSpace(s[..|s| - |rest|])
    requires middle <= rest && AllSpace(rest[|middle|..])
    ensures exists a, b :: Padded(s, a, middle, b)
  {
    var a, b := s[..|s| - |rest|], rest[|middle|..];
    assert s == a + rest && rest == middle + b;
    assert Padded(s, a, middle, b);
  }

  /** Trimming twice is trimming once. */
  lemma TrimIdempotent(s: string)
    ensures Trim(Trim(s)) == Trim(s)
  {
    TrimStartShape(s);
    TrimEndShape(TrimStart(s));
  }

  predicate StartsWith(s: string, prefix: string) {
    prefix <= s
  }

  /** `s.includes(part)`. */
  predicate Includes(s: string, part: string) {
    part <= s || (s != [] && Includes(s[1..], part))
  }

  /** `includes` means that `part` occurs at some index. */
  lemma {:induction false} IncludesAt(s: string, part: string)
    ensures Includes(s, part) <==> exists i :: 0 <= i <= |s| && part <= s[i..]
  {
    if part <= s {
      assert s[0..] == s;
    } else if s != [] {
      IncludesAt(s[1..], part);
      if i :| 0 <= i <= |s[1..]| && part <= s[1..][i..] {
        assert s[1..][i..] == s[i + 1..];
      }
      if i :| 0 <= i <= |s| && part <= s[i..] {
        assert i != 0 by { assert s[0..] == s; }
        assert s[1..][i - 1..] == s[i..];
      }
    }
  }

  /** The piece of a path up to its next slash. */
  function UpToSlash(s: string): string {
    if s == "" || s[0] == '/' then "" else [s[0]] + UpToSlash(s[1..])
  }

  /** The piece ends at the first slash, or with the string. */
  lemma {:induction false} UpToSlashExact(s: string, piece: string)
    ensures UpToSlash(s) == piece <==>
      '/' !in piece && piece <= s && (|piece| < |s| ==> s[|piece|] == '/')
  {
    if s == "" || s[0] == '/' {
      assert piece != "" && piece <= s ==> piece[0] == '/' && piece[0] in piece;
    } else if piece != "" {
      UpToSlashExact(s[1..], piece[1..]);
      assert piece == [piece[0]] + piece[1..];
      assert '/' in piece <==> piece[0] == '/' || '/' in piece[1..];
      assert piece <= s <==> piece[0] == s[0] && piece[1..] <= s[1..];
    }
  }

  lemma {:induction false} PieceBeforeSlash(piece: string, rest: string)
    requires '/' !in piece && StartsWith(rest, "/")
    ensures UpToSlash(piece + rest) == piece
  {
    if piece == "" {
      assert piece + rest == rest;
    } else {
      assert (piece + rest)[1..] == piece[1..] + rest;
      PieceBeforeSlash(piece[1..], rest);
      assert piece == [piece[0]] + piece[1..];
    }
  }
}
