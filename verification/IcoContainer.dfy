/** The icon container writer (brand/ico.ts), and an independent reader that gets back what was written. */
module IcoContainer {
  import opened Outcomes

  type Byte = n: int | 0 <= n < 256

  const LIMIT_16 := 0x1_0000
  const LIMIT_32 := 0x1_0000_0000

  datatype Icon = Icon(size: int, png: seq<Byte>)

  function Le16(n: int): (r: seq<Byte>)
    requires 0 <= n < LIMIT_16
    ensures |r| == 2
  {
    [n % 0x100, n / 0x100]
  }

  function Le32(n: int): (r: seq<Byte>)
    requires 0 <= n < LIMIT_32
    ensures |r| == 4
  {
    [n % 0x100, n / 0x100 % 0x100, n / 0x1_0000 % 0x100, n / 0x100_0000]
  }

  /** Storing a number in a byte keeps its low eight bits; sizes from 256 up are stored as 0. */
  function SizeByte(size: int): Byte {
    if size >= 256 then 0 else size % 256
  }

  function Images(icons: seq<Icon>): seq<Byte> {
    if icons == [] then [] else Images(icons[..|icons| - 1]) + icons[|icons| - 1].png
  }

  /** Where each image starts, and where the last one ends. */
  function Offset(icons: seq<Icon>, i: nat): nat
    requires i <= |icons|
  {
    6 + 16 * |icons| + |Images(icons[..i])|
  }

  predicate Writable(icons: seq<Icon>, i: nat)
    requires i < |icons|
  {
    |icons[i].png| < LIMIT_32 && Offset(icons, i) < LIMIT_32
  }

  predicate AllWritable(icons: seq<Icon>, count: nat)
    requires count <= |icons|
  {
    forall i :: 0 <= i < count ==> Writable(icons, i)
  }

  function EntryBytes(icon: Icon, offset: nat): (r: seq<Byte>)
    requires |icon.png| < LIMIT_32 && offset < LIMIT_32
    ensures |r| == 16
  {
    [SizeByte(icon.size), SizeByte(icon.size), 0, 0] + Le16(1) + Le16(32) + Le32(|icon.png|) + Le32(offset)
  }

  function Directory(icons: seq<Icon>, count: nat): (r: seq<Byte>)
    requires count <= |icons| && AllWritable(icons, count)
    ensures |r| == 16 * count
  {
    if count == 0 then []
    else
      assert Writable(icons, count - 1);
      Directory(icons, count - 1) + EntryBytes(icons[count - 1], Offset(icons, count - 1))
  }

  /** A count, length or offset that does not fit its field is refused. */
  predicate Representable(icons: seq<Icon>) {
    |icons| < LIMIT_16 && AllWritable(icons, |icons|)
  }

  function Build(icons: seq<Icon>): Option<seq<Byte>> {
    if Representable(icons) then Some(Le16(0) + Le16(1) + Le16(|icons|) + Directory(icons, |icons|) + Images(icons)) else None
  }

  // ----- Reading back -----

  function Read16(s: seq<Byte>, at: nat): nat
    requires at + 2 <= |s|
  {
    (s[at] as int) + 0x100 * (s[at + 1] as int)
  }

  function Read32(s: seq<Byte>, at: nat): nat
    requires at + 4 <= |s|
  {
    (s[at] as int) + 0x100 * (s[at + 1] as int) + 0x1_0000 * (s[at + 2] as int) + 0x100_0000 * (s[at + 3] as int)
  }

  /** The number of images, or nothing if this is no icon file. */
  function ReadCount(file: seq<Byte>): Option<nat> {
    if |file| >= 6 && Read16(file, 0) == 0 && Read16(file, 2) == 1 then Some(Read16(file, 4)) else None
  }

  datatype Image = Image(width: nat, height: nat, palette: nat, reserved: nat, planes: nat, bits: nat, offset: nat, png: seq<Byte>)

  function Shown(b: Byte): nat {
    if b == 0 then 256 else b
  }

  function ReadImage(file: seq<Byte>, i: nat): Option<Image> {
    var at := 6 + 16 * i;
    if at + 16 > |file| then None
    else
      var length, offset := Read32(file, at + 8), Read32(file, at + 12);
      if offset + length > |file| then None
      else Some(Image(Shown(file[at]), Shown(file[at + 1]), file[at + 2], file[at + 3], Read16(file, at + 4), Read16(file, at + 6),
                      offset, file[offset..offset + length]))
  }

  lemma Read32Le32(n: nat)
    requires n < LIMIT_32
    ensures Read32(Le32(n), 0) == n
  {
    var a, b, c := n / 0x100, n / 0x1_0000, n / 0x100_0000;
    Halved(n);
    assert n == 0x100 * a + n % 0x100 && a == 0x100 * b + a % 0x100 && b == 0x100 * c + b % 0x100;
    assert c < 0x100;
  }

  lemma Halved(n: nat)
    ensures n / 0x1_0000 == n / 0x100 / 0x100 && n / 0x100_0000 == n / 0x1_0000 / 0x100
  {
  }

  lemma {:induction false} DirectoryAt(icons: seq<Icon>, count: nat, i: nat)
    requires i < count <= |icons| && AllWritable(icons, count)
    ensures Writable(icons, i)
    ensures Directory(icons, count)[16 * i..16 * i + 16] == EntryBytes(icons[i], Offset(icons, i))
  {
    assert Writable(icons, count - 1);
    var front, last := Directory(icons, count - 1), EntryBytes(icons[count - 1], Offset(icons, count - 1));
    if i < count - 1 {
      DirectoryAt(icons, count - 1, i);
      assert (front + last)[16 * i..16 * i + 16] == front[16 * i..16 * i + 16];
    } else {
      assert (front + last)[16 * i..16 * i + 16] == last;
    }
  }

  lemma {:induction false} ImagesAt(icons: seq<Icon>, i: nat)
    requires i < |icons|
    ensures var at := |Images(icons[..i])|;
            at + |icons[i].png| <= |Images(icons)| && Images(icons)[at..at + |icons[i].png|] == icons[i].png
  {
    var front := icons[..|icons| - 1];
    if i < |icons| - 1 {
      ImagesAt(front, i);
      assert front[..i] == icons[..i];
      var at := |Images(front[..i])|;
      assert (Images(front) + icons[|icons| - 1].png)[at..at + |icons[i].png|] == Images(front)[at..at + |icons[i].png|];
    } else {
      assert icons[..i] == front;
    }
  }

  /** Images follow one another without gap or overlap, from the end of the directory to the end of the file. */
  lemma Contiguous(icons: seq<Icon>, i: nat)
    requires Build(icons).Some? && i < |icons|
    ensures Offset(icons, 0) == 6 + 16 * |icons|
    ensures Offset(icons, i + 1) == Offset(icons, i) + |icons[i].png|
    ensures Offset(icons, |icons|) == |Build(icons).value|
  {
    assert icons[..i + 1][..i] == icons[..i];
    assert icons[..|icons|] == icons;
  }

  function Header(count: nat): (r: seq<Byte>)
    requires count < LIMIT_16
    ensures |r| == 6
  {
    Le16(0) + Le16(1) + Le16(count)
  }

  lemma CountBack(count: nat, rest: seq<Byte>)
    requires count < LIMIT_16
    ensures ReadCount(Header(count) + rest) == Some(count)
  {
    var file, h := Header(count) + rest, Header(count);
    assert file[0] == h[0] && file[1] == h[1] && file[2] == h[2] && file[3] == h[3] && file[4] == h[4] && file[5] == h[5];
    assert h[4] == count % 0x100 && h[5] == count / 0x100;
  }

  lemma FieldsBack(file: seq<Byte>, at: nat, icon: Icon, offset: nat)
    requires |icon.png| < LIMIT_32 && offset < LIMIT_32
    requires at + 16 <= |file| && file[at..at + 16] == EntryBytes(icon, offset)
    ensures file[at] == file[at + 1] == SizeByte(icon.size)
    ensures file[at + 2] == file[at + 3] == 0 && Read16(file, at + 4) == 1 && Read16(file, at + 6) == 32
    ensures Read32(file, at + 8) == |icon.png| && Read32(file, at + 12) == offset
  {
    var e := EntryBytes(icon, offset);
    forall k | 0 <= k < 16 ensures file[at + k] == e[k] { assert file[at..at + 16][k] == file[at + k]; }
    forall k | 0 <= k < 4 ensures e[8 + k] == Le32(|icon.png|)[k] && e[12 + k] == Le32(offset)[k] {}
    Read32Le32(|icon.png|);
    Read32Le32(offset);
    assert file[at + 8 + 1] == e[8 + 1] && file[at + 8 + 2] == e[8 + 2] && file[at + 8 + 3] == e[8 + 3];
    assert file[at + 12 + 1] == e[12 + 1] && file[at + 12 + 2] == e[12 + 2] && file[at + 12 + 3] == e[12 + 3];
  }

  /** Reading a written file returns its number of images, and every image from where it was put. */
  lemma ReadBack(icons: seq<Icon>, i: nat)
    requires Build(icons).Some? && i < |icons|
    ensures var file, shown := Build(icons).value, Shown(SizeByte(icons[i].size));
            ReadCount(file) == Some(|icons|)
            && ReadImage(file, i) == Some(Image(shown, shown, 0, 0, 1, 32, Offset(icons, i), icons[i].png))
  {
    hide Le16, Le32, EntryBytes, Directory, Images, Read32, Read16, ReadCount;
    var file := Build(icons).value;
    var n, directory, images := |icons|, Directory(icons, |icons|), Images(icons);
    var at, offset := 6 + 16 * i, Offset(icons, i);
    assert file == Header(n) + directory + images;
    Assoc(Header(n), directory, images);
    CountBack(n, directory + images);
    assert Writable(icons, i);
    DirectoryAt(icons, n, i);
    Inside(Header(n), directory, images, 16 * i, 16);
    FieldsBack(file, at, icons[i], offset);
    ImagesAt(icons, i);
    Inside(Header(n) + directory, images, [], |Images(icons[..i])|, |icons[i].png|);
    assert Header(n) + directory + images + [] == file;
  }

  lemma Assoc(a: seq<Byte>, b: seq<Byte>, c: seq<Byte>)
    ensures a + b + c == a + (b + c)
  {
  }

  lemma Inside(a: seq<Byte>, b: seq<Byte>, c: seq<Byte>, at: nat, length: nat)
    requires at + length <= |b|
    ensures (a + b + c)[|a| + at..|a| + at + length] == b[at..at + length]
  {
  }

  /** Numbers are little-endian; the header of a file with one image, written out. */
  lemma WrittenOut()
    ensures Le32(0x0403_0201) == [1, 2, 3, 4] && Le16(0x0201) == [1, 2]
    ensures Header(1) == [0, 0, 1, 0, 1, 0]
  {
  }

  /** The size read back is the smaller of the size and 256, exactly for sizes of at least 1. */
  lemma SizeBack(size: int)
    ensures Shown(SizeByte(size)) == (if size < 256 then size else 256) <==> size >= 1
  {
  }

  // ----- The writer -----

  method WriteLe16(buffer: array<Byte>, n: int, at: nat)
    requires 0 <= n < LIMIT_16 && at + 2 <= buffer.Length
    modifies buffer
    ensures forall k :: 0 <= k < buffer.Length ==> buffer[k] == if at <= k < at + 2 then Le16(n)[k - at] else old(buffer[k])
  {
    buffer[at], buffer[at + 1] := n % 0x100, n / 0x100;
  }

  method WriteLe32(buffer: array<Byte>, n: int, at: nat)
    requires 0 <= n < LIMIT_32 && at + 4 <= buffer.Length
    modifies buffer
    ensures forall k :: 0 <= k < buffer.Length ==> buffer[k] == if at <= k < at + 4 then Le32(n)[k - at] else old(buffer[k])
  {
    buffer[at], buffer[at + 1], buffer[at + 2], buffer[at + 3] :=
      n % 0x100, n / 0x100 % 0x100, n / 0x1_0000 % 0x100, n / 0x100_0000;
  }

  method WriteEntry(dir: array<Byte>, p: nat, icon: Icon, offset: nat)
    requires |icon.png| < LIMIT_32 && offset < LIMIT_32 && p + 16 <= dir.Length
    modifies dir
    ensures dir[..p + 16] == old(dir[..p]) + EntryBytes(icon, offset)
  {
    hide Le16, Le32, SizeByte;
    dir[p], dir[p + 1], dir[p + 2], dir[p + 3] := SizeByte(icon.size), SizeByte(icon.size), 0, 0;
    WriteLe16(dir, 1, p + 4);
    WriteLe16(dir, 32, p + 6);
    WriteLe32(dir, |icon.png|, p + 8);
    WriteLe32(dir, offset, p + 12);
  }

  method WriteHeader(count: nat) returns (bytes: seq<Byte>)
    requires count < LIMIT_16
    ensures bytes == Header(count)
  {
    var header := new Byte[6](_ => 0);
    WriteLe16(header, 0, 0);
    WriteLe16(header, 1, 2);
    WriteLe16(header, count, 4);
    bytes := header[..];
  }

  method BuildIco(icons: seq<Icon>) returns (file: Option<seq<Byte>>)
    ensures file == Build(icons)
  {
    hide Le16, Le32, EntryBytes, SizeByte;
    if |icons| >= LIMIT_16 {
      return None;
    }
    var header := WriteHeader(|icons|);
    var offset := 6 + |icons| * 16;
    var dir := new Byte[|icons| * 16](_ => 0);
    var images: seq<Byte> := [];
    for i := 0 to |icons|
      invariant AllWritable(icons, i) && offset == Offset(icons, i)
      invariant dir[..16 * i] == Directory(icons, i)
      invariant images == Images(icons[..i])
    {
      if |icons[i].png| >= LIMIT_32 || offset >= LIMIT_32 {
        assert !Writable(icons, i);
        return None;
      }
      assert Writable(icons, i);
      WriteEntry(dir, 16 * i, icons[i], offset);
      assert icons[..i + 1][..i] == icons[..i];
      offset := offset + |icons[i].png|;
      images := images + icons[i].png;
    }
    assert icons[..|icons|] == icons;
    assert dir[..16 * |icons|] == dir[..];
    return Some(header + dir[..] + images);
  }
}
