/** Strings compare alike by characters and by the bytes of their encoding. */
module ByteOrder {
  import opened Text
  import opened Order

  /** `str` comparison as it is carried out, byte by byte. */
  predicate LeBytes(u: seq<byte>, v: seq<byte>) {
    u == [] || (v != [] && (u[0] < v[0] || (u[0] == v[0] && LeBytes(u[1..], v[1..]))))
  }

  /** The two differ first at place `k`, and there `u` has the smaller byte. */
  predicate DiffersAt(u: seq<byte>, v: seq<byte>, k: nat) {
    k < |u| && k < |v| && u[..k] == v[..k] && u[k] < v[k]
  }

  lemma {:induction false} FirstDifferenceDecides(u: seq<byte>, v: seq<byte>, k: nat, s: seq<byte>, t: seq<byte>)
    requires DiffersAt(u, v, k)
    ensures LeBytes(u + s, v + t) && !LeBytes(v + t, u + s)
  {
    if k == 0 {
    } else {
      assert u[0] == u[..k][0] && v[0] == v[..k][0];
      assert u[1..][..k - 1] == u[..k][1..] && v[1..][..k - 1] == v[..k][1..];
      FirstDifferenceDecides(u[1..], v[1..], k - 1, s, t);
      assert (u + s)[1..] == u[1..] + s && (v + t)[1..] == v[1..] + t;
    }
  }

  lemma {:induction false} SamePrefix(u: seq<byte>, s: seq<byte>, t: seq<byte>)
    ensures LeBytes(u + s, u + t) <==> LeBytes(s, t)
  {
    if u == [] {
      assert u + s == s && u + t == t;
    } else {
      SamePrefix(u[1..], s, t);
      assert (u + s)[1..] == u[1..] + s && (u + t)[1..] == u[1..] + t;
    }
  }

  /** One base-64 digit at a time. */
  lemma LastDigit(m: nat, n: nat)
    ensures m < n <==> m / 0x40 < n / 0x40 || (m / 0x40 == n / 0x40 && m % 0x40 < n % 0x40)
  {
  }

  lemma Shifts(n: nat)
    ensures n / 0x1000 == n / 0x40 / 0x40 && n / 0x4_0000 == n / 0x1000 / 0x40
  {
  }

  /** A longer encoding starts with a greater byte. */
  lemma LongerIsGreater(c: char, d: char)
    requires c < d && |Utf8(c)| != |Utf8(d)|
    ensures Utf8(c)[0] < Utf8(d)[0]
  {
  }

  lemma EqualLengthsKeepOrder(c: char, d: char) returns (k: nat)
    requires c < d && |Utf8(c)| == |Utf8(d)|
    ensures DiffersAt(Utf8(c), Utf8(d), k)
  {
    var u, v, m, n := Utf8(c), Utf8(d), c as int, d as int;
    Shifts(m);
    Shifts(n);
    LastDigit(m, n);
    LastDigit(m / 0x40, n / 0x40);
    LastDigit(m / 0x1000, n / 0x1000);
    k := if u[0] != v[0] then 0 else if u[1] != v[1] then 1 else if u[2] != v[2] then 2 else 3;
  }

  /** The encoding of a smaller character is smaller, and neither starts the other. */
  lemma Utf8KeepsOrder(c: char, d: char) returns (k: nat)
    requires c < d
    ensures DiffersAt(Utf8(c), Utf8(d), k)
  {
    hide Utf8;
    if |Utf8(c)| == |Utf8(d)| {
      k := EqualLengthsKeepOrder(c, d);
    } else {
      LongerIsGreater(c, d);
      k := 0;
    }
  }

  /** The order the model uses is the order of the encoded bytes. */
  lemma {:induction false} OrdersAgree(a: string, b: string)
    ensures Le(a, b) <==> LeBytes(Bytes(a), Bytes(b))
  {
    if a == [] || b == [] {
    } else if a[0] == b[0] {
      OrdersAgree(a[1..], b[1..]);
      SamePrefix(Utf8(a[0]), Bytes(a[1..]), Bytes(b[1..]));
    } else if a[0] < b[0] {
      var k := Utf8KeepsOrder(a[0], b[0]);
      FirstDifferenceDecides(Utf8(a[0]), Utf8(b[0]), k, Bytes(a[1..]), Bytes(b[1..]));
    } else {
      var k := Utf8KeepsOrder(b[0], a[0]);
      FirstDifferenceDecides(Utf8(b[0]), Utf8(a[0]), k, Bytes(b[1..]), Bytes(a[1..]));
    }
  }
}
