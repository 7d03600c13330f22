/**
 * Cache keys of the list handlers. The handlers build a query key with an
 * f-string that joins the parameters with "-" and renders a missing one
 * as "None", then hash it. `AsWrittenQueryKey` is that f-string; the
 * handlers of this model use `EncodeFields`, an unambiguous encoding of
 * the same parameters, for the reason `AsWrittenKeyCollides` shows in the
 * products module.
 */
module CacheKey {
  import opened Wrappers

  /** The decimal digit of 0..9. */
  function DigitChar(d: int): char
    requires 0 <= d < 10
  {
    "0123456789"[d]
  }

  /** `str(n)` for a non-negative int. */
  function Decimal(n: nat): (r: string)
    ensures |r| >= 1
    ensures n < 10 <==> |r| == 1
    decreases n
  {
    if n < 10 then [DigitChar(n)] else Decimal(n / 10) + [DigitChar(n % 10)]
  }

  /** Different numbers have different decimal texts. */
  lemma {:induction false} DecimalInjective(n: nat, m: nat)
    requires Decimal(n) == Decimal(m)
    ensures n == m
    decreases n
  {
    if n >= 10 {
      var dn, dm := Decimal(n), Decimal(m);
      assert m >= 10;
      assert dn[..|dn| - 1] == Decimal(n / 10) && dm[..|dm| - 1] == Decimal(m / 10);
      DecimalInjective(n / 10, m / 10);
      assert dn[|dn| - 1] == DigitChar(n % 10) && dm[|dm| - 1] == DigitChar(m % 10);
    }
  }

  /** `f"{x}"` of an optional string: Python prints None as "None". */
  function Render(x: Option<string>): string {
    match x
    case None => "None"
    case Some(s) => s
  }

  /** `"-".join(parts)`, as the f-string lays the query key out. */
  function JoinDash(parts: seq<string>): string {
    if parts == [] then ""
    else if |parts| == 1 then parts[0]
    else parts[0] + "-" + JoinDash(parts[1..])
  }

  /** Joining a non-empty list puts the head, then a dash, before the joined tail. */
  lemma JoinDashTail(head: string, tail: seq<string>)
    requires tail != []
    ensures JoinDash([head] + tail) == head + "-" + JoinDash(tail)
  {
    assert ([head] + tail)[1..] == tail;
  }

  /**
   * Where a dash sits inside a field, the joined text cannot tell it from the
   * separator: "a" then "b-c" joins like "a-b" then "c".
   */
  lemma JoinDashRegroup(a: string, b: string, c: string, tail: seq<string>)
    requires tail != []
    ensures JoinDash([a, b + "-" + c] + tail) == JoinDash([a + "-" + b, c] + tail)
  {
    JoinDashTail(a, [b + "-" + c] + tail);
    JoinDashTail(b + "-" + c, tail);
    JoinDashTail(a + "-" + b, [c] + tail);
    JoinDashTail(c, tail);
    assert [a, b + "-" + c] + tail == [a] + ([b + "-" + c] + tail);
    assert [a + "-" + b, c] + tail == [a + "-" + b] + ([c] + tail);
  }

  /** The query key as the handlers write it: each field rendered, then joined with "-". */
  function AsWrittenQueryKey(fields: seq<Option<string>>): string {
    JoinDash(RenderAll(fields))
  }

  function RenderAll(fields: seq<Option<string>>): (r: seq<string>)
    ensures |r| == |fields| && forall i :: 0 <= i < |fields| ==> r[i] == Render(fields[i])
  {
    seq(|fields|, i requires 0 <= i < |fields| => Render(fields[i]))
  }

  // ---- the unambiguous encoding ----

  /** "-" and "\" are escaped with a backslash; other characters stand for themselves. */
  function EscapeChar(c: char): string {
    if c == '-' then "\\-" else if c == '\\' then "\\\\" else [c]
  }

  function Escape(s: string): string {
    if s == [] then "" else EscapeChar(s[0]) + Escape(s[1..])
  }

  /** A field: its escaped text ended by "-"; a missing field is "\N-", which no escaped text starts with. */
  function EncodeField(f: Option<string>): string {
    match f
    case None => "\\N-"
    case Some(s) => Escape(s) + "-"
  }

  function EncodeFields(fs: seq<Option<string>>): string {
    if fs == [] then "" else EncodeField(fs[0]) + EncodeFields(fs[1..])
  }

  /** Read escaped text up to the first unescaped "-": the text and what follows the "-". */
  function ReadEscaped(s: string): Option<(string, string)>
    decreases |s|
  {
    if s == [] then None
    else if s[0] == '-' then Some(("", s[1..]))
    else if s[0] == '\\' then
      if |s| >= 2 && (s[1] == '-' || s[1] == '\\') then
        match ReadEscaped(s[2..])
        case None => None
        case Some(p) => Some(([s[1]] + p.0, p.1))
      else None
    else
      match ReadEscaped(s[1..])
      case None => None
      case Some(p) => Some(([s[0]] + p.0, p.1))
  }

  /** Read one field off the front of a key. */
  function DecodeField(s: string): Option<(Option<string>, string)> {
    if |s| >= 3 && s[..3] == "\\N-" then Some((None, s[3..]))
    else
      match ReadEscaped(s)
      case None => None
      case Some(p) => Some((Some(p.0), p.1))
  }

  lemma {:induction false} ReadEscapedRoundTrip(t: string, rest: string)
    ensures ReadEscaped(Escape(t) + "-" + rest) == Some((t, rest))
    decreases |t|
  {
    var s := Escape(t) + "-" + rest;
    if t == [] {
      assert s == "-" + rest;
    } else {
      ReadEscapedRoundTrip(t[1..], rest);
      var tail := Escape(t[1..]) + "-" + rest;
      assert s == EscapeChar(t[0]) + tail;
      if t[0] == '-' || t[0] == '\\' {
        assert s[0] == '\\' && s[1] == t[0] && s[2..] == tail;
      } else {
        assert s[0] == t[0] && s[1..] == tail;
      }
      assert [t[0]] + t[1..] == t;
    }
  }

  /** Escaped text never starts with the missing-field marker "\N-". */
  lemma NoMarkerPrefix(t: string, rest: string)
    ensures var s := Escape(t) + "-" + rest; !(|s| >= 3 && s[..3] == "\\N-")
  {
    var s := Escape(t) + "-" + rest;
    if t == [] {
      assert s[0] == '-';
    } else {
      assert s == EscapeChar(t[0]) + (Escape(t[1..]) + "-" + rest);
      if t[0] == '-' || t[0] == '\\' {
        assert s[1] == t[0];
      } else {
        assert s[0] == t[0];
      }
    }
  }

  /** An encoded field is read back exactly, leaving what follows it. */
  lemma DecodeFieldRoundTrip(f: Option<string>, rest: string)
    ensures DecodeField(EncodeField(f) + rest) == Some((f, rest))
  {
    var s := EncodeField(f) + rest;
    match f
    case None =>
      assert s[..3] == "\\N-" && s[3..] == rest;
    case Some(t) =>
      ReadEscapedRoundTrip(t, rest);
      NoMarkerPrefix(t, rest);
      assert s == Escape(t) + "-" + rest;
  }

  lemma EncodeFieldNonEmpty(f: Option<string>)
    ensures |EncodeField(f)| >= 1
  {
    match f
    case None =>
    case Some(t) =>
  }

  /** Different field lists give different encodings. */
  lemma {:induction false} EncodeFieldsInjective(a: seq<Option<string>>, b: seq<Option<string>>)
    requires EncodeFields(a) == EncodeFields(b)
    ensures a == b
    decreases |a|
  {
    if a == [] {
      if b != [] {
        EncodeFieldNonEmpty(b[0]);
        assert false;
      }
    } else {
      if b == [] {
        EncodeFieldNonEmpty(a[0]);
        assert false;
      }
      DecodeFieldRoundTrip(a[0], EncodeFields(a[1..]));
      DecodeFieldRoundTrip(b[0], EncodeFields(b[1..]));
      EncodeFieldsInjective(a[1..], b[1..]);
      assert a == [a[0]] + a[1..] && b == [b[0]] + b[1..];
    }
  }

  /** The prefixed, hashed cache key of a query key. */
  function CacheKeyOf(prefix: string, hash: string -> string, queryKey: string): string {
    prefix + hash(queryKey)
  }

  /** The idealised digest: different texts hash differently. */
  ghost predicate CollisionFree(hash: string -> string) {
    forall x, y :: hash(x) == hash(y) ==> x == y
  }

  /** With a collision-free hash, equal cache keys under one prefix come from equal query keys. */
  lemma CacheKeyInjective(prefix: string, hash: string -> string, k1: string, k2: string)
    requires CollisionFree(hash)
    requires CacheKeyOf(prefix, hash, k1) == CacheKeyOf(prefix, hash, k2)
    ensures k1 == k2
  {
    var c1, c2 := CacheKeyOf(prefix, hash, k1), CacheKeyOf(prefix, hash, k2);
    assert c1[|prefix|..] == hash(k1) && c2[|prefix|..] == hash(k2);
  }

  /** Under one prefix and a collision-free hash, the encoded key determines the parameter list. */
  lemma EncodedKeyInjective(prefix: string, hash: string -> string, f1: seq<Option<string>>, f2: seq<Option<string>>)
    requires CollisionFree(hash)
    requires CacheKeyOf(prefix, hash, EncodeFields(f1)) == CacheKeyOf(prefix, hash, EncodeFields(f2))
    ensures f1 == f2
  {
    CacheKeyInjective(prefix, hash, EncodeFields(f1), EncodeFields(f2));
    EncodeFieldsInjective(f1, f2);
  }

  /** The cache key the handlers write: the prefix and the digest of the dash-joined parameters. */
  function AsWrittenCacheKey(prefix: string, hash: string -> string, fields: seq<Option<string>>): (r: string)
    ensures prefix <= r && r[|prefix|..] == hash(AsWrittenQueryKey(fields))
  {
    CacheKeyOf(prefix, hash, AsWrittenQueryKey(fields))
  }
}
