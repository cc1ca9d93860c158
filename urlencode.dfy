/**
 * `urllib.parse.urlencode` with its default `quote_plus` and `safe=''`: each key
 * and value is encoded as UTF-8, the always-safe bytes `A-Z a-z 0-9 _ . - ~`
 * are kept, a space becomes `+`, every other byte becomes `%XX` (upper-case hex),
 * and the `key=value` pairs are joined with `&`.
 */
module UrlEncoding {
  import opened Strings

  /** The UTF-8 bytes of one Unicode scalar value. */
  function Utf8(c: char): (bytes: seq<int>)
    ensures 1 <= |bytes| <= 4
    ensures forall i :: 0 <= i < |bytes| ==> 0 <= bytes[i] < 256
    ensures c as int < 128 ==> bytes == [c as int]
    ensures c as int >= 128 ==> forall i :: 0 <= i < |bytes| ==> bytes[i] >= 128
  {
    var n := c as int;
    if n < 0x80 then [n]
    else if n < 0x800 then [0xC0 + n / 64, 0x80 + n % 64]
    else if n < 0x10000 then [0xE0 + n / 4096, 0x80 + (n / 64) % 64, 0x80 + n % 64]
    else [0xF0 + n / 262144, 0x80 + (n / 4096) % 64, 0x80 + (n / 64) % 64, 0x80 + n % 64]
  }

  /** The bytes `quote` never escapes. */
  predicate AlwaysSafe(b: int) {
    || ('A' as int <= b <= 'Z' as int)
    || ('a' as int <= b <= 'z' as int)
    || ('0' as int <= b <= '9' as int)
    || b == '_' as int || b == '.' as int || b == '-' as int || b == '~' as int
  }

  predicate SafeChar(c: char) {
    AlwaysSafe(c as int)
  }

  /** The characters an encoded component can contain. */
  predicate QuotedChar(c: char) {
    SafeChar(c) || c == '+' || c == '%'
  }

  function HexDigit(d: int): (c: char)
    requires 0 <= d < 16
    ensures SafeChar(c)
  {
    if d < 10 then ('0' as int + d) as char else ('A' as int + d - 10) as char
  }

  function QuoteByte(b: int): (r: string)
    requires 0 <= b < 256
    ensures forall i :: 0 <= i < |r| ==> QuotedChar(r[i])
  {
    if AlwaysSafe(b) then [b as char]
    else if b == ' ' as int then "+"
    else "%" + [HexDigit(b / 16), HexDigit(b % 16)]
  }

  function QuoteBytes(bytes: seq<int>): (r: string)
    requires forall i :: 0 <= i < |bytes| ==> 0 <= bytes[i] < 256
    ensures forall i :: 0 <= i < |r| ==> QuotedChar(r[i])
  {
    if bytes == [] then [] else QuoteByte(bytes[0]) + QuoteBytes(bytes[1..])
  }

  /** `quote_plus(s, safe='')`: the encoding never contains `&` or `=`. */
  function Quote(s: string): (r: string)
    ensures forall i :: 0 <= i < |r| ==> QuotedChar(r[i])
  {
    if s == [] then [] else QuoteBytes(Utf8(s[0])) + Quote(s[1..])
  }

  /** A component made only of always-safe characters is sent as it is. */
  lemma {:induction false} QuoteSafe(s: string)
    requires forall i :: 0 <= i < |s| ==> SafeChar(s[i])
    ensures Quote(s) == s
  {
    if s != [] {
      assert SafeChar(s[0]);
      var b := s[0] as int;
      assert Utf8(s[0]) == [b];
      assert QuoteBytes([b]) == QuoteByte(b) + QuoteBytes([]);
      assert QuoteByte(b) == [s[0]];
      QuoteSafe(s[1..]);
      assert [s[0]] + s[1..] == s;
    }
  }

  /** One `key=value` pair of the query string. */
  function EncodePair(key: string, value: string): (r: string)
    ensures '&' !in r
    ensures Split(r, '=') == [Quote(key), Quote(value)]
  {
    var k, v := Quote(key), Quote(value);
    assert '&' !in k && '=' !in k && '&' !in v && '=' !in v by {
      assert forall i :: 0 <= i < |k| ==> QuotedChar(k[i]);
      assert forall i :: 0 <= i < |v| ==> QuotedChar(v[i]);
    }
    SplitAfterPiece(k, v, '=');
    SplitWithoutSep(v, '=');
    k + "=" + v
  }

  function EncodePairs(pairs: seq<(string, string)>): (r: seq<string>)
    ensures |r| == |pairs|
    ensures forall i :: 0 <= i < |pairs| ==> r[i] == EncodePair(pairs[i].0, pairs[i].1)
  {
    if pairs == [] then [] else [EncodePair(pairs[0].0, pairs[0].1)] + EncodePairs(pairs[1..])
  }

  /** `urlencode(pairs)`: the encoded pairs joined with `&`, in order. */
  function UrlEncode(pairs: seq<(string, string)>): (q: string)
    ensures q == [] <==> pairs == []
  {
    var encoded := EncodePairs(pairs);
    if pairs == [] then [] else
      assert '=' in encoded[0];
      JoinStartsWithFirst(encoded, '&');
      Join(encoded, '&')
  }

  /** The query string splits at `&` back into its encoded pairs, in order. */
  lemma UrlEncodeSplit(pairs: seq<(string, string)>)
    requires pairs != []
    ensures Split(UrlEncode(pairs), '&') == EncodePairs(pairs)
  {
    SplitJoin(EncodePairs(pairs), '&');
  }

  lemma JoinStartsWithFirst(pieces: seq<string>, sep: char)
    requires |pieces| >= 1
    ensures StartsWith(Join(pieces, sep), pieces[0])
  {
  }
}
