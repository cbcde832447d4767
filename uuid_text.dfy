/** The text form of a UUID, as the JSON file stores its keys: `str(uuid)`
    writes it and `UUID(text)` reads it back. */
module UuidText {
  import opened Wrappers
  import opened Domain

  function Pow16(k: nat): (p: nat)
    ensures p > 0
  {
    if k == 0 then 1 else 16 * Pow16(k - 1)
  }

  lemma {:induction false} Pow16Add(a: nat, b: nat)
    ensures Pow16(a + b) == Pow16(a) * Pow16(b)
  {
    if a > 0 {
      Pow16Add(a - 1, b);
    }
  }

  /** 32 hex digits span exactly the 128-bit range of a UUID. */
  lemma Pow16Of32()
    ensures Pow16(32) == 0x1_0000_0000_0000_0000_0000_0000_0000_0000
  {
    assert Pow16(8) == 0x1_0000_0000;
    Pow16Add(8, 8);
    Pow16Add(16, 16);
  }

  predicate IsHexDigit(c: char) {
    '0' <= c <= '9' || 'a' <= c <= 'f' || 'A' <= c <= 'F'
  }

  predicate AllHex(s: string) {
    forall i :: 0 <= i < |s| ==> IsHexDigit(s[i])
  }

  /** The value of one hex digit; upper and lower case are read alike. */
  function DigitValue(c: char): (v: nat)
    requires IsHexDigit(c)
    ensures v < 16
  {
    if '0' <= c <= '9' then c as int - '0' as int
    else if 'a' <= c <= 'f' then c as int - 'a' as int + 10
    else c as int - 'A' as int + 10
  }

  /** The lower-case hex digit for `d`, as `format(d, "x")` writes it. */
  function HexDigit(d: nat): (c: char)
    requires d < 16
    ensures IsHexDigit(c) && c != '-' && DigitValue(c) == d
  {
    if d < 10 then ('0' as int + d) as char else ('a' as int + d - 10) as char
  }

  /** `"%0*x" % (k, n)` for `n < 16^k`: the `k` lowest hex digits of `n`,
      most significant first. */
  function HexDigits(n: nat, k: nat): (s: string)
    ensures |s| == k
    ensures AllHex(s) && '-' !in s
  {
    if k == 0 then "" else HexDigits(n / 16, k - 1) + [HexDigit(n % 16)]
  }

  /** `int(s, 16)` for a string of hex digits. */
  function HexValue(s: string): (v: nat)
    requires AllHex(s)
    ensures v < Pow16(|s|)
  {
    if s == [] then 0
    else
      var init := HexValue(s[..|s| - 1]);
      var last := DigitValue(s[|s| - 1]);
      assert init * 16 + last < 16 * Pow16(|s| - 1) by {
        assert init <= Pow16(|s| - 1) - 1;
        assert init * 16 <= 16 * Pow16(|s| - 1) - 16;
      }
      init * 16 + last
  }

  lemma {:induction false} HexRoundTrip(n: nat, k: nat)
    requires n < Pow16(k)
    ensures HexValue(HexDigits(n, k)) == n
  {
    if k > 0 {
      var s := HexDigits(n, k);
      assert n / 16 < Pow16(k - 1);
      HexRoundTrip(n / 16, k - 1);
      assert s[..k - 1] == HexDigits(n / 16, k - 1);
    }
  }

  /** `s.replace('-', '')`. */
  function RemoveHyphens(s: string): (r: string)
    ensures |r| <= |s| && '-' !in r
  {
    if s == [] then []
    else (if s[0] == '-' then [] else [s[0]]) + RemoveHyphens(s[1..])
  }

  lemma {:induction false} RemoveHyphensAppend(a: string, b: string)
    ensures RemoveHyphens(a + b) == RemoveHyphens(a) + RemoveHyphens(b)
  {
    if a == [] {
      assert a + b == b;
    } else {
      var head := if a[0] == '-' then [] else [a[0]];
      assert (a + b)[0] == a[0];
      assert (a + b)[1..] == a[1..] + b;
      RemoveHyphensAppend(a[1..], b);
      calc {
        RemoveHyphens(a + b);
        head + RemoveHyphens(a[1..] + b);
        head + (RemoveHyphens(a[1..]) + RemoveHyphens(b));
        (head + RemoveHyphens(a[1..])) + RemoveHyphens(b);
      }
    }
  }

  lemma {:induction false} RemoveHyphensNone(s: string)
    requires '-' !in s
    ensures RemoveHyphens(s) == s
  {
    if s != [] {
      RemoveHyphensNone(s[1..]);
    }
  }

  /** `str(uuid)`: 32 lower-case hex digits in groups of 8-4-4-4-12
      separated by hyphens. */
  function Format(u: Uuid): (s: string)
    ensures |s| == 36
    ensures s[8] == s[13] == s[18] == s[23] == '-'
    ensures Parse(s) == Some(u)
  {
    var h := HexDigits(u, 32);
    var s := h[..8] + "-" + (h[8..12] + "-" + (h[12..16] + "-" + (h[16..20] + "-" + h[20..])));
    FormatThenRemoveHyphens(h, s);
    Pow16Of32();
    HexRoundTrip(u, 32);
    s
  }

  lemma RemoveHyphensJoin(x: string, y: string)
    requires '-' !in x
    ensures RemoveHyphens(x + "-" + y) == x + RemoveHyphens(y)
  {
    var dash: string := "-";
    assert RemoveHyphens(dash) == [] by {
      assert dash[0] == '-' && dash[1..] == [];
    }
    RemoveHyphensAppend(x + dash, y);
    RemoveHyphensAppend(x, dash);
    RemoveHyphensNone(x);
    assert RemoveHyphens(x + dash) == x;
  }

  lemma FormatThenRemoveHyphens(h: string, s: string)
    requires |h| == 32 && '-' !in h
    requires s == h[..8] + "-" + (h[8..12] + "-" + (h[12..16] + "-" + (h[16..20] + "-" + h[20..])))
    ensures RemoveHyphens(s) == h
  {
    var h0, h1, h2, h3, h4 := h[..8], h[8..12], h[12..16], h[16..20], h[20..];
    RemoveHyphensNone(h4);
    RemoveHyphensJoin(h3, h4);
    RemoveHyphensJoin(h2, h3 + "-" + h4);
    RemoveHyphensJoin(h1, h2 + "-" + (h3 + "-" + h4));
    RemoveHyphensJoin(h0, h1 + "-" + (h2 + "-" + (h3 + "-" + h4)));
    assert h == h0 + (h1 + (h2 + (h3 + h4)));
  }

  /** `UUID(text)`: hyphens are dropped and exactly 32 hex digits of either
      case must remain; anything else raises ValueError, here `None`. */
  function Parse(s: string): (r: Option<Uuid>)
    ensures r.Some? <==> |RemoveHyphens(s)| == 32 && AllHex(RemoveHyphens(s))
  {
    var h := RemoveHyphens(s);
    if |h| == 32 && AllHex(h) then
      Pow16Of32();
      Some(HexValue(h))
    else None
  }

  /** Distinct UUIDs have distinct text forms, so keying the JSON object by
      `str(id)` merges no two resources. */
  lemma FormatInjective(u: Uuid, v: Uuid)
    requires Format(u) == Format(v)
    ensures u == v
  {
  }
}
