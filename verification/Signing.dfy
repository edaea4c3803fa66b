/** Signing an executable with its checksum, and the loader's check of it. */
module Signing {
  import opened Crc

  /** Offset of the checksum in the file header. */
  const FIELD := 60

  /** A file with room for the field. */
  type File = f: seq<Octet> | |f| >= FIELD + 4 witness seq(FIELD + 4, _ => Zeros(8))

  const NONE: Word := Zeros(32)

  /** Four bytes as a 32-bit number, the lowest first. */
  function Joined(a: Octet, b: Octet, c: Octet, d: Octet): Word {
    var w: seq<bool> := a;
    w + b + c + d
  }

  function Field(f: File): Word {
    Joined(f[60], f[61], f[62], f[63])
  }

  function Bytes(c: Word): (b: seq<Octet>)
    ensures |b| == 4
  {
    [c[..8], c[8..16], c[16..24], c[24..]]
  }

  function WithField(f: File, c: Word): (g: File)
    ensures |g| == |f|
  {
    f[..60] + Bytes(c) + f[64..]
  }

  lemma FieldOfWith(f: File, c: Word)
    ensures Field(WithField(f, c)) == c
    ensures forall k :: 0 <= k < |f| && !(60 <= k < 64) ==> WithField(f, c)[k] == f[k]
  {
    assert c == c[..8] + c[8..16] + c[16..24] + c[24..];
    var g := WithField(f, c);
    assert g[60] == Bytes(c)[0] && g[61] == Bytes(c)[1] && g[62] == Bytes(c)[2] && g[63] == Bytes(c)[3];
  }

  lemma WithSameField(f: File, g: File)
    requires |f| == |g| && forall k :: 0 <= k < |f| && !(60 <= k < 64) ==> f[k] == g[k]
    ensures WithField(f, Field(g)) == g
  {
    var c := Field(g);
    assert c[..8] == g[60] && c[8..16] == g[61] && c[16..24] == g[62] && c[24..] == g[63];
    forall k | 0 <= k < |g|
      ensures WithField(f, c)[k] == g[k]
    {
      if 60 <= k < 64 {
        assert WithField(f, c)[k] == Bytes(c)[k - 60];
      }
    }
  }

  /** The field stands behind two words, two half words and twelve words of the
      header; its bits are in the order of its bytes, the lowest byte first. */
  lemma FieldIs(f: File, i: nat)
    requires i < 32
    ensures Field(f)[i] == f[2 * 4 + 2 * 2 + 12 * 4 + i / 8][i % 8]
  {
  }

  /** The signed file; `after` is the byte that happens to follow it in the
      signer's buffer. */
  function Signed(f: File, after: Octet): File {
    WithField(f, Checksum(f + [after]))
  }

  datatype Verdict = Unsigned | Accepted | Corrupt

  /** The loader's judgement of an image in memory, `after` being the byte that
      follows it there. Without a checksum the user is asked. */
  function Judge(f: File, after: Octet): Verdict {
    if Field(f) == NONE then Unsigned
    else if Checksum(WithField(f, NONE) + [after]) == Field(f) then Accepted
    else Corrupt
  }

  // ----- the two programs -----

  method WriteField(f: array<Octet>, start: nat, c: Word)
    requires start + 64 <= f.Length
    modifies f
    ensures f[..start] == old(f[..start]) && f[start..] == WithField(old(f[start..]), c)
  {
    f[start + 60], f[start + 61], f[start + 62], f[start + 63] := c[..8], c[8..16], c[16..24], c[24..];
    var g := old(f[start..]);
    FieldOfWith(g, c);
    forall k | 0 <= k < |g|
      ensures f[start..][k] == WithField(g, c)[k]
    {
      if 60 <= k < 64 {
        assert WithField(g, c)[k] == Bytes(c)[k - 60];
      }
    }
  }

  /** Refuses a file that already has a checksum. The file is read into a buffer
      one byte longer than it; that byte is not set. */
  method Sign(file: array<Octet>, after: Octet) returns (ok: bool)
    requires file.Length >= 64
    modifies file
    ensures ok == (Field(old(file[..])) == NONE)
    ensures file[..] == if ok then Signed(old(file[..]), after) else old(file[..])
  {
    hide Checksum, WithField;
    ghost var f: File := file[..];
    var field := Joined(file[60], file[61], file[62], file[63]);
    SameField(file[..], field);
    if field != NONE {
      return false;
    }
    var buffer := new Octet[file.Length + 1](_ => after);
    forall i | 0 <= i < file.Length {
      buffer[i] := file[i];
    }
    assert file[..] == f;
    assert buffer[0..0 + file.Length + 1] == f + [after];
    var crc := GenerateChecksumCRC32(buffer, 0, file.Length);
    assert crc == Checksum(f + [after]);
    assert file[0..] == f;
    WriteField(file, 0, crc);
    assert file[..] == file[0..] == Signed(f, after);
    ok := true;
  }

  /** The check of an image of `size` bytes at `start`: the field is cleared for
      the computation and put back when the checksum is right. */
  method CheckImage(memory: array<Octet>, start: nat, size: nat) returns (v: Verdict)
    requires 64 <= size && start + size < memory.Length
    modifies memory
    ensures v == Judge(old(memory[start..start + size]), old(memory[start + size]))
    ensures v != Corrupt ==> memory[..] == old(memory[..])
  {
    hide Checksum, WithField, Field;
    ghost var all := memory[..];
    ghost var f: File := memory[start..start + size];
    var checksum := Joined(memory[start + 60], memory[start + 61], memory[start + 62], memory[start + 63]);
    SameField(f, checksum);
    if checksum == NONE {
      return Unsigned;
    }
    WriteField(memory, start, NONE);
    Inside(all, start, size, NONE, memory[..]);
    var computed := GenerateChecksumCRC32(memory, start, size);
    if computed != checksum {
      return Corrupt;
    }
    ghost var cleared := memory[..];
    WriteField(memory, start, checksum);
    PutBack(all, start, size, cleared, memory[..], checksum);
    v := Accepted;
  }

  lemma SameField(f: File, c: Word)
    requires c == Joined(f[60], f[61], f[62], f[63])
    ensures Field(f) == c
  {
  }

  lemma Inside(all: seq<Octet>, start: nat, size: nat, c: Word, after: seq<Octet>)
    requires 64 <= size && start + size < |all| == |after|
    requires after[..start] == all[..start] && after[start..] == WithField(all[start..], c)
    ensures after[start..start + size + 1] == WithField(all[start..start + size], c) + [all[start + size]]
  {
    assert after[start..start + size + 1] == after[start..][..size + 1];
    FieldOfWith(all[start..], c);
    FieldOfWith(all[start..start + size], c);
    var g, h := WithField(all[start..], c), WithField(all[start..start + size], c);
    forall k | 0 <= k < size + 1
      ensures g[k] == (h + [all[start + size]])[k]
    {
      if 60 <= k < 64 {
        assert g[k] == Bytes(c)[k - 60] && h[k] == Bytes(c)[k - 60];
      }
    }
    assert g[..size + 1] == h + [all[start + size]];
  }

  lemma PutBack(all: seq<Octet>, start: nat, size: nat, cleared: seq<Octet>, after: seq<Octet>, c: Word)
    requires 64 <= size && start + size < |all| == |cleared| == |after|
    requires cleared[..start] == all[..start] && cleared[start..] == WithField(all[start..], NONE)
    requires after[..start] == cleared[..start] && after[start..] == WithField(cleared[start..], c)
    requires c == Field(all[start..start + size])
    ensures after == all
  {
    hide WithField;
    FieldOfWith(all[start..], NONE);
    assert Field(all[start..]) == c;
    WithSameField(cleared[start..], all[start..]);
    assert after == after[..start] + after[start..];
    assert all == all[..start] + all[start..];
  }

  // ----- round trip -----

  lemma ClearedIsOriginal(f: File, after: Octet)
    requires Field(f) == NONE
    ensures WithField(Signed(f, after), NONE) == f
  {
    hide WithField, Checksum, Field;
    FieldOfWith(f, Checksum(f + [after]));
    WithSameField(Signed(f, after), f);
  }

  /** A byte more or less at the end shows in the checksum. */
  lemma LastByteMatters(f: File, x: Octet, y: Octet)
    ensures Checksum(f + [x]) == Checksum(f + [y]) <==> x == y
  {
    hide Checksum;
    if x != y {
      var a, b := f + [x], f + [y];
      assert a[|f|] != b[|f|];
      BytesDifferWithin(a, b, |f|);
      BurstDetected(a, b, 8 * |f|);
    }
  }

  lemma BytesDifferWithin(a: seq<Octet>, b: seq<Octet>, p: nat)
    requires |a| == |b| && forall k :: 0 <= k < |a| && !(p <= k < p + 4) ==> a[k] == b[k]
    ensures DifferWithin(a, b, 8 * p, 32)
  {
    forall i | 0 <= i < 8 * |a| && !(8 * p <= i < 8 * p + 32)
      ensures AllBits(a)[i] == AllBits(b)[i]
    {
      OutsideBytes(i, p);
    }
  }

  lemma OutsideBytes(i: nat, p: nat)
    requires !(8 * p <= i < 8 * p + 32)
    ensures !(p <= i / 8 < p + 4)
  {
  }

  /** A file signed and then loaded is accepted, provided its checksum is not
      zero, exactly when the byte after it was the same for signer and loader.
      With a zero checksum the signature is not seen. */
  lemma SignedIsAccepted(f: File, x: Octet, y: Octet)
    requires Field(f) == NONE
    ensures Checksum(f + [x]) == NONE ==> Judge(Signed(f, x), y) == Unsigned
    ensures Checksum(f + [x]) != NONE ==> (Judge(Signed(f, x), y) == Accepted <==> x == y)
    ensures WithField(Signed(f, x), NONE) == f
  {
    hide WithField, Checksum, Field;
    FieldOfWith(f, Checksum(f + [x]));
    ClearedIsOriginal(f, x);
    LastByteMatters(f, x, y);
  }

  /** Any change within four bytes in a row outside the field is rejected. */
  lemma ChangeIsRejected(f: File, after: Octet, t: File, p: nat)
    requires Field(f) == NONE && Checksum(f + [after]) != NONE
    requires |t| == |f| && t != Signed(f, after) && Field(t) == Field(Signed(f, after))
    requires forall k :: 0 <= k < |t| && !(p <= k < p + 4) ==> t[k] == Signed(f, after)[k]
    ensures Judge(t, after) == Corrupt
  {
    hide WithField, Checksum, Field;
    var s := Signed(f, after);
    FieldOfWith(f, Checksum(f + [after]));
    ClearedIsOriginal(f, after);
    FieldOfWith(t, NONE);
    FieldOfWith(s, NONE);
    var g := WithField(t, NONE);
    if g == f {
      WithSameField(s, t);
      WithSameField(s, s);
      assert false;
    }
    var a, b := f + [after], g + [after];
    assert a[..|f|] == f && b[..|f|] == g;
    forall k | 0 <= k < |a| && !(p <= k < p + 4)
      ensures a[k] == b[k]
    {
      if k < |f| {
        WithSameByte(s, t, NONE, k);
      }
    }
    BytesDifferWithin(a, b, p);
    BurstDetected(a, b, 8 * p);
  }

  lemma WithSameByte(s: File, t: File, c: Word, k: nat)
    requires |s| == |t| && k < |s| && s[k] == t[k]
    ensures WithField(s, c)[k] == WithField(t, c)[k]
  {
  }

  /** A changed field is rejected, or taken for no signature at all. */
  lemma ChangedFieldIsRejected(f: File, after: Octet, c: Word)
    requires Field(f) == NONE && c != Checksum(f + [after])
    ensures Judge(WithField(f, c), after) == if c == NONE then Unsigned else Corrupt
  {
    hide WithField, Checksum, Field;
    FieldOfWith(f, c);
    WithSameField(WithField(f, c), f);
  }
}
