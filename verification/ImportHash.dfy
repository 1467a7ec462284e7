/** Length-framed hashing: every hash the importer takes is over a list of parts, each
    preceded by its length, so that the list can be read back from what was hashed. */
module ImportHash {
  import opened Common

  /** A text as its UTF-8 bytes; no text is longer than half the address space. */
  type Bytes = s: seq<byte> | |s| < 0x8000_0000_0000_0000 witness []

  /** A SHA-256 digest in hexadecimal. */
  type Digest = d: seq<byte> | |d| == 64 witness seq(64, _ => 0x30)

  const WIDTH: nat := 8

  /** The bytes of an ASCII literal. */
  function Ascii(s: string): (r: seq<byte>)
    ensures |r| == |s|
  {
    seq(|s|, i requires 0 <= i < |s| => s[i] as int % 0x100)
  }

  /** `n.to_le_bytes()` at a given width. */
  function LittleEndian(n: nat, width: nat): (r: seq<byte>)
    ensures |r| == width
  {
    if width == 0 then [] else [n % 0x100] + LittleEndian(n / 0x100, width - 1)
  }

  function Limit(width: nat): nat { if width == 0 then 1 else 0x100 * Limit(width - 1) }

  lemma {:induction false} LittleEndianInjective(a: nat, b: nat, width: nat)
    requires a < Limit(width) && b < Limit(width) && LittleEndian(a, width) == LittleEndian(b, width)
    ensures a == b
  {
    if width > 0 {
      var x, y := LittleEndian(a, width), LittleEndian(b, width);
      assert x[0] == y[0] && x[1..] == y[1..];
      assert a / 0x100 < Limit(width - 1) && b / 0x100 < Limit(width - 1);
      LittleEndianInjective(a / 0x100, b / 0x100, width - 1);
    }
  }

  lemma LimitIs()
    ensures Limit(WIDTH) == 0x1_0000_0000_0000_0000
  {
    assert Limit(4) == 0x1_0000_0000;
    assert Limit(8) == 0x1_0000_0000 * Limit(4);
  }

  function Frame(part: Bytes): seq<byte> { LittleEndian(|part|, WIDTH) + part }

  function Framed(parts: seq<Bytes>): seq<byte> {
    if parts == [] then [] else Framed(parts[..|parts| - 1]) + Frame(parts[|parts| - 1])
  }

  lemma {:induction false} FramedCons(part: Bytes, parts: seq<Bytes>)
    ensures Framed([part] + parts) == Frame(part) + Framed(parts)
  {
    var all := [part] + parts;
    if parts == [] {
      assert all[..0] == [];
      assert [] + Frame(part) == Frame(part) + [];
    } else {
      var n := |parts| - 1;
      assert all[..n + 1] == [part] + parts[..n];
      FramedCons(part, parts[..n]);
      assert Frame(part) + Framed(parts[..n]) + Frame(parts[n]) == Frame(part) + (Framed(parts[..n]) + Frame(parts[n]));
    }
  }

  /** The first part can be told from what follows it. */
  lemma FirstPart(a: Bytes, b: Bytes, x: seq<byte>, y: seq<byte>)
    requires Frame(a) + x == Frame(b) + y
    ensures a == b && x == y
  {
    var s, t := Frame(a) + x, Frame(b) + y;
    assert s[..WIDTH] == LittleEndian(|a|, WIDTH) && t[..WIDTH] == LittleEndian(|b|, WIDTH);
    LimitIs();
    LittleEndianInjective(|a|, |b|, WIDTH);
    assert s[WIDTH..WIDTH + |a|] == a && t[WIDTH..WIDTH + |a|] == b;
    assert s[WIDTH + |a|..] == x && t[WIDTH + |a|..] == y;
  }

  /** Framing is uniquely decodable: equal byte strings come from equal lists of parts. */
  lemma {:induction false} FramedInjective(a: seq<Bytes>, b: seq<Bytes>)
    requires Framed(a) == Framed(b)
    ensures a == b
  {
    if a != [] && b != [] {
      FramedCons(a[0], a[1..]);
      FramedCons(b[0], b[1..]);
      assert a == [a[0]] + a[1..] && b == [b[0]] + b[1..];
      FirstPart(a[0], b[0], Framed(a[1..]), Framed(b[1..]));
      FramedInjective(a[1..], b[1..]);
    } else {
      NonEmptyFrames(a);
      NonEmptyFrames(b);
    }
  }

  lemma NonEmptyFrames(parts: seq<Bytes>)
    ensures Framed(parts) == [] <==> parts == []
  {
  }

  // ---- the hasher -------------------------------------------------------------------------------

  /** A hasher is what has been fed to it. */
  class Hasher {
    var fed: seq<byte>

    constructor ()
      ensures fed == []
    {
      fed := [];
    }

    method Update(bytes: seq<byte>)
      modifies this
      ensures fed == old(fed) + bytes
    {
      fed := fed + bytes;
    }

    method HashPart(part: Bytes)
      modifies this
      ensures fed == old(fed) + Frame(part)
    {
      Update(LittleEndian(|part|, WIDTH));
      Update(part);
    }

    method HashParts(parts: seq<Bytes>)
      modifies this
      ensures fed == old(fed) + Framed(parts)
    {
      for i := 0 to |parts|
        invariant fed == old(fed) + Framed(parts[..i])
      {
        HashPart(parts[i]);
        assert parts[..i + 1][..i] == parts[..i];
      }
      assert parts[..|parts|] == parts;
    }
  }

  /** `sha256_parts`, for any hash function. */
  method HashOfParts(hash: seq<byte> -> Digest, parts: seq<Bytes>) returns (d: Digest)
    ensures d == hash(Framed(parts))
  {
    var hasher := new Hasher();
    hasher.HashParts(parts);
    assert [] + Framed(parts) == Framed(parts);
    d := hash(hasher.fed);
  }

  /** No two of the inputs share a digest. */
  predicate CollisionFree(hash: seq<byte> -> Digest, inputs: set<seq<byte>>) {
    forall x, y :: x in inputs && y in inputs && hash(x) == hash(y) ==> x == y
  }

  lemma DigestDecidesParts(hash: seq<byte> -> Digest, a: seq<Bytes>, b: seq<Bytes>)
    requires CollisionFree(hash, {Framed(a), Framed(b)})
    ensures hash(Framed(a)) == hash(Framed(b)) <==> a == b
  {
    if hash(Framed(a)) == hash(Framed(b)) {
      FramedInjective(a, b);
    }
  }
}
