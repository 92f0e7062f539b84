/** The blob archive of src/extract.c: records masked with the bytes of an installer file.

    Files are byte sequences; the digests of a text are a function of it.
 */
module Archive {
  import opened Bytes

  const SUMS_LEN := 36
  const INT32_LIMIT := 0x8000_0000
  const MAX_NAME_LEN := 1024

  // ----- numbers in the file -----

  /** A 32-bit integer as a little-endian host writes it. */
  function Put32(n: nat): (s: seq<bv8>)
    requires n < INT32_LIMIT
    ensures |s| == 4
  {
    [ByteOf(n % 256), ByteOf(n / 256 % 256), ByteOf(n / 256 / 256 % 256), ByteOf(n / 256 / 256 / 256)]
  }

  /** What reading the four bytes as a signed integer gives. */
  function Get32(s: seq<bv8>): (n: int)
    requires |s| == 4
    ensures -INT32_LIMIT <= n < INT32_LIMIT
  {
    var n := Num(s[0]) + 256 * Num(s[1]) + 65536 * Num(s[2]) + 16777216 * Num(s[3]);
    if n >= INT32_LIMIT then n - 2 * INT32_LIMIT else n
  }

  lemma DigitSum(n: nat)
    requires n < INT32_LIMIT
    ensures n % 256 + 256 * (n / 256 % 256) + 65536 * (n / 256 / 256 % 256) + 16777216 * (n / 256 / 256 / 256) == n
    ensures n / 256 / 256 / 256 < 256
  {
  }

  lemma GetPut(n: nat)
    requires n < INT32_LIMIT
    ensures Get32(Put32(n)) == n
  {
    hide ByteOf, Num;
    DigitSum(n);
    NumOfByte(n % 256);
    NumOfByte(n / 256 % 256);
    NumOfByte(n / 256 / 256 % 256);
    NumOfByte(n / 256 / 256 / 256);
  }

  predicate LowestFirst(b0: bv8, b1: bv8, b2: bv8, b3: bv8, n: nat) {
    n == b0 as int + 0x100 * b1 as int + 0x1_0000 * b2 as int + 0x100_0000 * b3 as int
  }

  /** The number of the four bytes, lowest first, less two to the 32nd if the highest bit is set. */
  lemma Get32Is(s: seq<bv8>)
    requires |s| == 4
    ensures var n := Get32(s); LowestFirst(s[0], s[1], s[2], s[3], if n < 0 then n + 0x1_0000_0000 else n)
  {
    hide Num, LowestFirst;
    LowestValue(s[0], s[1], s[2], s[3]);
  }

  lemma LowestValue(b0: bv8, b1: bv8, b2: bv8, b3: bv8)
    ensures LowestFirst(b0, b1, b2, b3, Num(b0) + 256 * Num(b1) + 65536 * Num(b2) + 16777216 * Num(b3))
  {
    hide Num;
    NumIsValue(b0);
    NumIsValue(b1);
    NumIsValue(b2);
    NumIsValue(b3);
  }

  // ----- the mask -----

  function MaskByte(b: bv8, o: bv8): bv8 {
    b ^ (o ^ 0xA5)
  }

  lemma MaskFormula(b: bv8, o: bv8)
    ensures MaskByte(b, o) == b ^ o ^ 0xA5
  {
  }

  lemma MaskByteTwice(b: bv8, o: bv8)
    ensures MaskByte(MaskByte(b, o), o) == b
  {
  }

  function Masked(data: seq<bv8>, obf: seq<bv8>): (r: seq<bv8>)
    requires |data| == |obf|
    ensures |r| == |data|
  {
    seq(|data|, i requires 0 <= i < |data| => MaskByte(data[i], obf[i]))
  }

  lemma MaskedTwice(data: seq<bv8>, obf: seq<bv8>)
    requires |data| == |obf|
    ensures Masked(Masked(data, obf), obf) == data
  {
    hide MaskByte;
    forall i | 0 <= i < |data|
      ensures Masked(Masked(data, obf), obf)[i] == data[i]
    {
      MaskByteTwice(data[i], obf[i]);
    }
  }

  // ----- what is stored -----

  datatype Source = Source(path: seq<bv8>, data: seq<bv8>)

  datatype File = File(name: seq<bv8>, data: seq<bv8>)

  predicate NulFree(s: seq<bv8>) {
    forall i :: 0 <= i < |s| ==> s[i] != 0
  }

  /** The part after the last slash. */
  function BaseName(path: seq<bv8>): (r: seq<bv8>)
    ensures |r| <= |path| && (NulFree(path) ==> NulFree(r))
  {
    if path == [] then []
    else
      var rest := BaseName(path[1..]);
      if path[0] == 0x2F || |rest| < |path| - 1 then rest else path
  }

  /** It is the only text that holds no slash and is the whole path or follows a slash of it. */
  lemma {:induction false} BaseNameIs(path: seq<bv8>)
    ensures var r := BaseName(path);
      && (forall i :: 0 <= i < |r| ==> r[i] != 0x2F)
      && r == path[|path| - |r|..] && (|r| < |path| ==> path[|path| - |r| - 1] == 0x2F)
  {
    if path != [] {
      var rest := BaseName(path[1..]);
      BaseNameIs(path[1..]);
      if path[0] != 0x2F && |rest| == |path| - 1 {
        assert rest == path[1..];
      }
    }
  }

  /** One record: lengths, name with its NUL, masked data, digests of the plain data. */
  function Record(name: seq<bv8>, data: seq<bv8>, obf: seq<bv8>, sums: seq<bv8>): (r: seq<bv8>)
    requires |name| + 1 < INT32_LIMIT && |data| == |obf| < INT32_LIMIT
    ensures |r| == 8 + |name| + 1 + |data| + |sums|
  {
    Put32(|name| + 1) + Put32(|data|) + (name + [0] + Masked(data, obf) + sums)
  }

  /** The bytes of a record, one by one: both lengths with their lowest byte first, the name and its NUL, the data put
      over the installer and 0xA5, the digests. */
  lemma RecordBytes(name: seq<bv8>, data: seq<bv8>, obf: seq<bv8>, sums: seq<bv8>)
    requires |name| + 1 < INT32_LIMIT && |data| == |obf| < INT32_LIMIT
    ensures var r, n := Record(name, data, obf, sums), |name|;
      && LowestFirst(r[0], r[1], r[2], r[3], n + 1) && LowestFirst(r[4], r[5], r[6], r[7], |data|)
      && r[8..8 + n] == name && r[8 + n] == 0 && r[9 + n + |data|..] == sums
      && forall i :: 0 <= i < |data| ==> r[9 + n + i] == data[i] ^ obf[i] ^ 0xA5
  {
    hide Put32, Masked, LowestFirst;
    var r, n, m := Record(name, data, obf, sums), |name|, Masked(data, obf);
    Places(Put32(n + 1), Put32(|data|), name, m, sums, r);
    PutBytes(n + 1);
    PutBytes(|data|);
    forall i | 0 <= i < |data|
      ensures r[9 + n + i] == data[i] ^ obf[i] ^ 0xA5
    {
      MaskedAt(data, obf, i);
    }
  }

  lemma Places(a: seq<bv8>, b: seq<bv8>, name: seq<bv8>, m: seq<bv8>, sums: seq<bv8>, r: seq<bv8>)
    requires |a| == |b| == 4 && r == a + b + (name + [0] + m + sums)
    ensures |r| == 9 + |name| + |m| + |sums|
    ensures forall i :: 0 <= i < 4 ==> r[i] == a[i] && r[4 + i] == b[i]
    ensures r[8..8 + |name|] == name && r[8 + |name|] == 0 && r[9 + |name| + |m|..] == sums
    ensures forall i :: 0 <= i < |m| ==> r[9 + |name| + i] == m[i]
  {
    var body := name + [0] + m + sums;
    assert r[8..] == body;
    assert forall i :: 0 <= i < |body| ==> r[8 + i] == body[i];
    assert forall i :: 0 <= i < |m| ==> body[|name| + 1 + i] == m[i];
  }

  lemma MaskedAt(data: seq<bv8>, obf: seq<bv8>, i: nat)
    requires i < |data| == |obf|
    ensures Masked(data, obf)[i] == data[i] ^ obf[i] ^ 0xA5
  {
    MaskFormula(data[i], obf[i]);
  }

  lemma PutBytes(n: nat)
    requires n < INT32_LIMIT
    ensures var s := Put32(n); LowestFirst(s[0], s[1], s[2], s[3], n)
  {
    hide ByteOf;
    DigitSum(n);
    ByteValue(n % 256);
    ByteValue(n / 256 % 256);
    ByteValue(n / 256 / 256 % 256);
    ByteValue(n / 256 / 256 / 256);
  }

  /** append_file takes this source while the installer has left bytes to come. */
  predicate Takes(s: Source, left: nat) {
    |s.data| < INT32_LIMIT && |BaseName(s.path)| < MAX_NAME_LEN && |s.data| <= left
  }

  predicate TakesAll(sources: seq<Source>, left: nat) {
    sources == [] || (Takes(sources[0], left) && TakesAll(sources[1..], left - |sources[0].data|))
  }

  function Records(sources: seq<Source>, inst: seq<bv8>, digest: seq<bv8> -> seq<bv8>): seq<bv8>
    requires TakesAll(sources, |inst|)
  {
    if sources == [] then []
    else
      var s := sources[0];
      Record(BaseName(s.path), s.data, inst[..|s.data|], digest(s.data))
        + Records(sources[1..], inst[|s.data|..], digest)
  }

  const END: seq<bv8> := [0, 0, 0, 0, 0, 0, 0, 0]

  // ----- writing -----

  /** An open file with its position; fread delivers what is left when that is less than asked for. */
  class Stream {
    const bytes: seq<bv8>
    var pos: nat
    var eof: bool

    constructor (bytes: seq<bv8>)
      ensures this.bytes == bytes && Valid() && pos == 0 && !eof && Rest() == bytes
    {
      this.bytes, pos, eof := bytes, 0, false;
    }

    predicate Valid()
      reads this
    {
      pos <= |bytes|
    }

    function Rest(): seq<bv8>
      requires Valid()
      reads this
    {
      bytes[pos..]
    }

    method Read(n: nat) returns (data: seq<bv8>)
      requires Valid()
      modifies `pos, `eof
      ensures Valid() && |data| == (if n <= |old(Rest())| then n else |old(Rest())|)
      ensures data == old(Rest())[..|data|] && Rest() == old(Rest())[|data|..]
      ensures eof == (old(eof) || |data| < n)
    {
      var got := if n <= |bytes| - pos then n else |bytes| - pos;
      data := bytes[pos..pos + got];
      pos := pos + got;
      eof := eof || got < n;
    }
  }

  lemma MaskedFormula(data: seq<bv8>, obf: seq<bv8>, r: seq<bv8>)
    requires |data| == |obf| == |r| && forall k :: 0 <= k < |r| ==> r[k] == MaskByte(data[k], obf[k])
    ensures r == Masked(data, obf) && forall k :: 0 <= k < |r| ==> r[k] == data[k] ^ obf[k] ^ 0xA5
  {
    forall k | 0 <= k < |r|
      ensures r[k] == data[k] ^ obf[k] ^ 0xA5
    {
      MaskFormula(data[k], obf[k]);
    }
  }

  /** obfuscate: masks size bytes of the buffer in place; fails, at the installer's end, if it is too short. */
  method Obfuscate(buf: array<bv8>, from: nat, size: nat, installer: Stream) returns (ok: bool)
    requires from + size <= buf.Length && installer.Valid()
    modifies buf, installer`pos, installer`eof
    ensures installer.Valid() && ok == (size <= |old(installer.Rest())|)
    ensures ok ==> forall k :: 0 <= k < size ==>
      buf[from..from + size][k] == old(buf[from..from + size])[k] ^ old(installer.Rest())[k] ^ 0xA5
    ensures ok ==> buf[from..from + size] == Masked(old(buf[from..from + size]), old(installer.Rest())[..size])
                   && installer.Rest() == old(installer.Rest())[size..]
    ensures !ok ==> buf[..] == old(buf[..]) && installer.Rest() == []
    ensures buf[..from] == old(buf[..from]) && buf[from + size..] == old(buf[from + size..])
  {
    hide MaskByte;
    var obf := installer.Read(size);
    ghost var before := buf[..];
    if |obf| != size {
      return false;
    }
    ghost var left := installer.Rest();
    for i := 0 to size
      invariant installer.Valid() && installer.Rest() == left
      invariant forall k :: 0 <= k < buf.Length ==>
        buf[k] == if from <= k < from + i then MaskByte(old(buf[k]), obf[k - from]) else old(buf[k])
    {
      buf[from + i] := MaskByte(buf[from + i], obf[i]);
    }
    MaskedFormula(before[from..from + size], obf, buf[from..from + size]);
    ok := true;
  }

  /** process_file with write_named_file, and append_file around it. */
  method AppendFile(s: Source, blob: seq<bv8>, installer: Stream, digest: seq<bv8> -> seq<bv8>)
    returns (ok: bool, blob': seq<bv8>)
    requires installer.Valid()
    modifies installer
    ensures installer.Valid() && ok == Takes(s, |old(installer.Rest())|)
    ensures ok ==> installer.Rest() == old(installer.Rest())[|s.data|..]
    ensures blob' == blob +
      if ok then Record(BaseName(s.path), s.data, old(installer.Rest())[..|s.data|], digest(s.data)) else []
  {
    hide Put32, Masked, BaseName;
    blob' := blob;
    var size, name := |s.data|, BaseName(s.path);
    if size >= INT32_LIMIT || |name| >= MAX_NAME_LEN {
      return false, blob;
    }
    var buf := new bv8[size](i requires 0 <= i < size => s.data[i]);
    assert buf[..] == s.data && buf[0..0 + size] == s.data;
    var sums := digest(s.data);
    ok := Obfuscate(buf, 0, size, installer);
    if ok {
      assert buf[..] == buf[0..0 + size];
      blob' := blob + (Put32(|name| + 1) + Put32(size) + (name + [0] + buf[..] + sums));
    }
  }

  lemma Joined(a: seq<bv8>, b: seq<bv8>, c: seq<bv8>)
    ensures a + (b + c) == (a + b) + c
  {
  }

  /** create_blob: the digests of the installer, the records, the end mark. */
  method CreateBlob(sources: seq<Source>, inst: seq<bv8>, header: seq<bv8>, digest: seq<bv8> -> seq<bv8>)
    returns (ok: bool, blob: seq<bv8>)
    ensures ok == TakesAll(sources, |inst|)
    ensures ok ==> blob == header + Records(sources, inst, digest) + END
  {
    hide Record, Records, TakesAll, Takes, BaseName;
    NoSources(inst, digest);
    assert sources[0..] == sources;
    var installer := new Stream(inst);
    blob := header;
    ok := true;
    var idx := 0;
    while idx < |sources| && ok
      invariant idx <= |sources| && installer.Valid()
      invariant ok ==> TakesAll(sources, |inst|) == TakesAll(sources[idx..], |installer.Rest()|)
      invariant !ok ==> !TakesAll(sources, |inst|)
      invariant ok && TakesAll(sources, |inst|) ==>
        header + Records(sources, inst, digest) == blob + Records(sources[idx..], installer.Rest(), digest)
    {
      ghost var left, before := installer.Rest(), blob;
      NextSource(sources, idx, left, digest);
      ok, blob := AppendFile(sources[idx], blob, installer, digest);
      if ok {
        ghost var s := sources[idx];
        TakesEnough(s, |left|);
        assert |installer.Rest()| == |left| - |s.data|;
        if TakesAll(sources, |inst|) {
          ghost var record := Record(BaseName(s.path), s.data, left[..|s.data|], digest(s.data));
          Joined(before, record, Records(sources[idx + 1..], installer.Rest(), digest));
        }
      }
      idx := idx + 1;
    }
    if ok {
      assert sources[idx..] == [];
      NoSources(installer.Rest(), digest);
      blob := blob + END;
    }
  }

  lemma NoSources(inst: seq<bv8>, digest: seq<bv8> -> seq<bv8>)
    ensures TakesAll([], |inst|) && Records([], inst, digest) == []
  {
  }

  lemma NextSource(sources: seq<Source>, idx: nat, left: seq<bv8>, digest: seq<bv8> -> seq<bv8>)
    requires idx < |sources|
    ensures var s := sources[idx];
      && TakesAll(sources[idx..], |left|) == (Takes(s, |left|) && TakesAll(sources[idx + 1..], |left| - |s.data|))
      && (TakesAll(sources[idx..], |left|) ==>
           Records(sources[idx..], left, digest)
           == Record(BaseName(s.path), s.data, left[..|s.data|], digest(s.data))
             + Records(sources[idx + 1..], left[|s.data|..], digest))
  {
    hide Record;
    assert sources[idx..][0] == sources[idx] && sources[idx..][1..] == sources[idx + 1..];
  }

  // ----- reading -----

  /** The sum of two lengths in 32 bits. */
  function Sum32(a: int, b: int): (n: int)
    requires -INT32_LIMIT <= a < INT32_LIMIT && -INT32_LIMIT <= b < INT32_LIMIT
    ensures -INT32_LIMIT <= n < INT32_LIMIT
    ensures 0 <= a && 0 <= b ==> (n >= 0 <==> a + b < INT32_LIMIT) && (n >= 0 ==> n == a + b)
  {
    if a + b >= INT32_LIMIT then a + b - 2 * INT32_LIMIT
    else if a + b < -INT32_LIMIT then a + b + 2 * INT32_LIMIT
    else a + b
  }

  /** Undefined: lengths or names for which the C code leaves its buffer. */
  datatype Status = Done | Failed | Undefined

  datatype Extraction = Extraction(status: Status, files: seq<File>, blobLeft: nat, instLeft: nat)

  function CStr(s: seq<bv8>): (r: seq<bv8>)
    ensures |r| <= |s| && r == s[..|r|] && NulFree(r) && (|r| < |s| ==> s[|r|] == 0)
  {
    if s == [] || s[0] == 0 then [] else [s[0]] + CStr(s[1..])
  }

  /** What the buffer of one record yields; the mask is too short, the digests differ, or a file is written. */
  datatype Yield = Nothing | Written(file: File) | NoName

  function Processed(buffer: seq<bv8>, nameLen: nat, dataLen: nat, obf: seq<bv8>, digest: seq<bv8> -> seq<bv8>): Yield
    requires |buffer| == nameLen + dataLen + SUMS_LEN
  {
    if |obf| != dataLen then Nothing
    else
      var data := Masked(buffer[nameLen..nameLen + dataLen], obf);
      if digest(data) != buffer[nameLen + dataLen..] then Nothing
      else
        var all := buffer[..nameLen] + data + buffer[nameLen + dataLen..];
        if |CStr(all)| == |all| then NoName else Written(File(CStr(all), data))
  }

  /** The progress message prints the buffer as a C string, which has to end inside. */
  predicate HasNul(s: seq<bv8>) {
    |CStr(s)| < |s|
  }

  function FileOf(y: Yield): seq<File> {
    if y.Written? then [y.file] else []
  }

  /** extract_files on what is left of the blob and of the installer. */
  function ExtractFrom(blob: seq<bv8>, inst: seq<bv8>, digest: seq<bv8> -> seq<bv8>): Extraction
    decreases |blob|
  {
    if |blob| < 8 then Extraction(Failed, [], 0, |inst|)
    else
      var nameLen, dataLen, rest := Get32(blob[..4]), Get32(blob[4..8]), blob[8..];
      var total := Sum32(nameLen, dataLen);
      if total == 0 then Extraction(Done, [], |rest|, |inst|)
      else if total < -SUMS_LEN then Extraction(Failed, [], |rest|, |inst|)  // as a size: no such amount of memory
      else if total < 0 || nameLen < 0 || dataLen < 0 then Extraction(Undefined, [], |rest|, |inst|)
      else if |rest| < total + SUMS_LEN then Extraction(Failed, [], 0, |inst|)
      else if !HasNul(rest[..total + SUMS_LEN]) then Extraction(Undefined, [], |rest| - (total + SUMS_LEN), |inst|)
      else
        var n := if dataLen <= |inst| then dataLen else |inst|;
        var y := Processed(rest[..total + SUMS_LEN], nameLen, dataLen, inst[..n], digest);
        if y == NoName then Extraction(Undefined, [], |rest| - (total + SUMS_LEN), |inst| - n)
        else
          var more := ExtractFrom(rest[total + SUMS_LEN..], inst[n..], digest);
          more.(files := FileOf(y) + more.files)
  }

  lemma OrZero(a: bv8, b: bv8, c: bv8)
    ensures a | (b ^ c) == 0 <==> a == 0 && b == c
  {
  }

  /** The comparison loop of process_buffer. */
  method SameSums(sums: seq<bv8>, checksum: seq<bv8>) returns (same: bool)
    requires |sums| == |checksum|
    ensures same <==> sums == checksum
  {
    var cmp: bv8 := 0;
    for i := 0 to |sums|
      invariant cmp == 0 <==> sums[..i] == checksum[..i]
    {
      OrZero(cmp, sums[i], checksum[i]);
      assert sums[..i + 1] == sums[..i] + [sums[i]] && checksum[..i + 1] == checksum[..i] + [checksum[i]];
      cmp := cmp | (sums[i] ^ checksum[i]);
    }
    assert sums[..|sums|] == sums && checksum[..|sums|] == checksum;
    same := cmp == 0;
  }

  /** process_buffer */
  method ProcessBuffer(buffer: array<bv8>, nameLen: nat, dataLen: nat, installer: Stream, digest: seq<bv8> -> seq<bv8>)
    returns (y: Yield)
    requires buffer.Length == nameLen + dataLen + SUMS_LEN && installer.Valid()
    requires forall s :: |digest(s)| == SUMS_LEN
    modifies buffer, installer
    ensures installer.Valid()
    ensures var n := if dataLen <= |old(installer.Rest())| then dataLen else |old(installer.Rest())|;
      && y == Processed(old(buffer[..]), nameLen, dataLen, old(installer.Rest())[..n], digest)
      && installer.Rest() == old(installer.Rest())[n..]
  {
    ghost var before, obf := buffer[..], installer.Rest();
    assert before[nameLen..nameLen + dataLen] == buffer[nameLen..nameLen + dataLen];
    assert before[nameLen + dataLen..] == buffer[nameLen + dataLen..] && before[..nameLen] == buffer[..nameLen];
    var ok := Obfuscate(buffer, nameLen, dataLen, installer);
    if !ok {
      return Nothing;
    }
    var data, checksum := buffer[nameLen..nameLen + dataLen], buffer[nameLen + dataLen..];
    var same := SameSums(digest(data), checksum);
    if !same {
      return Nothing;
    }
    assert buffer[..] == before[..nameLen] + data + before[nameLen + dataLen..];
    var name := CStr(buffer[..]);
    y := if |name| == buffer.Length then NoName else Written(File(name, data));
  }

  lemma HeadShort(blob: seq<bv8>, inst: seq<bv8>, digest: seq<bv8> -> seq<bv8>)
    requires |blob| < 8
    ensures ExtractFrom(blob, inst, digest) == Extraction(Failed, [], 0, |inst|)
  {
  }

  lemma HeadRead(blob: seq<bv8>, inst: seq<bv8>, digest: seq<bv8> -> seq<bv8>, nameLen: int, dataLen: int,
          rest: seq<bv8>)
    requires 8 <= |blob| && nameLen == Get32(blob[..4]) && dataLen == Get32(blob[4..8]) && rest == blob[8..]
    requires Sum32(nameLen, dataLen) <= 0 || nameLen < 0 || dataLen < 0
    ensures var total := Sum32(nameLen, dataLen);
      ExtractFrom(blob, inst, digest)
      == Extraction(if total == 0 then Done else if total < -SUMS_LEN then Failed else Undefined, [], |rest|, |inst|)
  {
    hide Get32, Processed, Sum32;
  }

  lemma BodyRead(blob: seq<bv8>, inst: seq<bv8>, digest: seq<bv8> -> seq<bv8>, nameLen: nat, dataLen: nat,
          rest: seq<bv8>)
    requires 8 <= |blob| && nameLen == Get32(blob[..4]) && dataLen == Get32(blob[4..8]) && rest == blob[8..]
    requires Sum32(nameLen, dataLen) == nameLen + dataLen > 0
    ensures var len, n := nameLen + dataLen + SUMS_LEN, if dataLen <= |inst| then dataLen else |inst|;
      if |rest| < len then ExtractFrom(blob, inst, digest) == Extraction(Failed, [], 0, |inst|)
      else if !HasNul(rest[..len]) then
        ExtractFrom(blob, inst, digest) == Extraction(Undefined, [], |rest| - len, |inst|)
      else
        var y := Processed(rest[..len], nameLen, dataLen, inst[..n], digest);
        var more := ExtractFrom(rest[len..], inst[n..], digest);
        ExtractFrom(blob, inst, digest)
        == if y == NoName then Extraction(Undefined, [], |rest| - len, |inst| - n)
          else more.(files := FileOf(y) + more.files)
  {
    hide Get32, Processed, FileOf, HasNul;
  }

  /** One pass of the loop of extract_files: either it stops, or a record is read. */
  method ExtractOne(blob: Stream, installer: Stream, digest: seq<bv8> -> seq<bv8>)
    returns (stop: bool, status: Status, y: Yield)
    requires blob.Valid() && installer.Valid() && blob != installer && !blob.eof
    requires forall s :: |digest(s)| == SUMS_LEN
    modifies blob, installer
    ensures blob.Valid() && installer.Valid()
    ensures var now := ExtractFrom(old(blob.Rest()), old(installer.Rest()), digest);
      if stop then now == Extraction(status, [], |blob.Rest()|, |installer.Rest()|)
      else
        var next := ExtractFrom(blob.Rest(), installer.Rest(), digest);
        now == next.(files := FileOf(y) + next.files) && |blob.Rest()| < |old(blob.Rest())| && !blob.eof
  {
    hide Processed, Get32, FileOf, ExtractFrom, HasNul;
    ghost var rest, inst := blob.Rest(), installer.Rest();
    stop, y := true, Nothing;
    if |rest| < 8 {
      HeadShort(rest, inst, digest);
    }
    var first := blob.Read(4);
    if |first| != 4 {
      status := Failed;
      return;
    }
    var second := blob.Read(4);
    if |second| != 4 {
      status := Failed;
      return;
    }
    assert first == rest[..4] && second == rest[4..8] && blob.Rest() == rest[8..];
    var nameLen, dataLen := Get32(first), Get32(second);
    var total := Sum32(nameLen, dataLen);
    if total > 0 && 0 <= nameLen && 0 <= dataLen {
      BodyRead(rest, inst, digest, nameLen, dataLen, blob.Rest());
    } else {
      HeadRead(rest, inst, digest, nameLen, dataLen, blob.Rest());
    }
    if total == 0 {
      status := Done;
    } else if total < -SUMS_LEN {
      status := Failed;
    } else if total < 0 || nameLen < 0 || dataLen < 0 {
      status := Undefined;
    } else {
      stop, status, y := ExtractBody(blob, installer, nameLen, dataLen, digest);
    }
  }

  method ExtractBody(blob: Stream, installer: Stream, nameLen: nat, dataLen: nat, digest: seq<bv8> -> seq<bv8>)
    returns (stop: bool, status: Status, y: Yield)
    requires blob.Valid() && installer.Valid() && blob != installer && !blob.eof
    requires forall s :: |digest(s)| == SUMS_LEN
    modifies blob, installer
    ensures blob.Valid() && installer.Valid()
    ensures var rest, inst, len := old(blob.Rest()), old(installer.Rest()), nameLen + dataLen + SUMS_LEN;
      if |rest| < len then stop && status == Failed && blob.Rest() == [] && installer.Rest() == inst
      else if !HasNul(rest[..len]) then
        stop && status == Undefined && blob.Rest() == rest[len..] && installer.Rest() == inst
      else
        var n := if dataLen <= |inst| then dataLen else |inst|;
        && y == Processed(rest[..len], nameLen, dataLen, inst[..n], digest) && stop == (y == NoName)
        && (stop ==> status == Undefined)
        && blob.Rest() == rest[len..] && installer.Rest() == inst[n..] && !blob.eof
  {
    hide Processed;
    y := Nothing;
    var contents := blob.Read(nameLen + dataLen + SUMS_LEN);
    if |contents| != nameLen + dataLen + SUMS_LEN {
      return true, Failed, Nothing;
    }
    if |CStr(contents)| == |contents| {
      return true, Undefined, Nothing;
    }
    var buffer := new bv8[|contents|](i requires 0 <= i < |contents| => contents[i]);
    assert buffer[..] == contents;
    y := ProcessBuffer(buffer, nameLen, dataLen, installer, digest);
    stop, status := y == NoName, Undefined;
  }

  /** extract_files; a file that cannot be restored is skipped. */
  method ExtractFiles(blob: Stream, installer: Stream, digest: seq<bv8> -> seq<bv8>)
    returns (status: Status, files: seq<File>)
    requires blob.Valid() && installer.Valid() && blob != installer && !blob.eof
    requires forall s :: |digest(s)| == SUMS_LEN
    modifies blob, installer
    ensures blob.Valid() && installer.Valid()
    ensures Extraction(status, files, |blob.Rest()|, |installer.Rest()|)
        == ExtractFrom(old(blob.Rest()), old(installer.Rest()), digest)
  {
    hide ExtractFrom;
    status, files := Done, [];
    ghost var goal := ExtractFrom(blob.Rest(), installer.Rest(), digest);
    var stop := false;
    while !stop && !blob.eof
      invariant blob.Valid() && installer.Valid() && (!stop ==> !blob.eof)
      invariant
        if stop then goal == Extraction(status, files, |blob.Rest()|, |installer.Rest()|)
        else
          var now := ExtractFrom(blob.Rest(), installer.Rest(), digest);
          goal == now.(files := files + now.files)
      decreases if stop then 0 else 1 + |blob.Rest()|
    {
      var y;
      ghost var now := ExtractFrom(blob.Rest(), installer.Rest(), digest);
      stop, status, y := ExtractOne(blob, installer, digest);
      if !stop {
        ghost var more := ExtractFrom(blob.Rest(), installer.Rest(), digest);
        assert now == more.(files := FileOf(y) + more.files);
        assert files + (FileOf(y) + more.files) == (files + FileOf(y)) + more.files;
        files := files + FileOf(y);
      }
    }
  }

  // ----- the round trip -----

  /** The lengths of this source, as an archive record states them, can be added up in 32 bits. */
  predicate Fits(s: Source) {
    |BaseName(s.path)| + 1 + |s.data| < INT32_LIMIT
  }

  function FilesOf(sources: seq<Source>): seq<File> {
    if sources == [] then [] else [File(BaseName(sources[0].path), sources[0].data)] + FilesOf(sources[1..])
  }

  function Sizes(sources: seq<Source>): nat {
    if sources == [] then 0 else |sources[0].data| + Sizes(sources[1..])
  }

  lemma NameEnds(name: seq<bv8>, tail: seq<bv8>)
    requires NulFree(name)
    ensures CStr(name + [0] + tail) == name
  {
    var all := name + [0] + tail;
    assert all[|name|] == 0 && forall i :: 0 <= i < |name| ==> all[i] == name[i];
    assert |CStr(all)| == |name|;
  }

  /** The buffer of a record written with the same mask gives back the file. */
  lemma RecordProcessed(name: seq<bv8>, data: seq<bv8>, obf: seq<bv8>, digest: seq<bv8> -> seq<bv8>)
    requires NulFree(name) && |data| == |obf| && |digest(data)| == SUMS_LEN
    ensures Processed(name + [0] + Masked(data, obf) + digest(data), |name| + 1, |data|, obf, digest)
        == Written(File(name, data))
  {
    hide Masked;
    var n, sums := |name| + 1, digest(data);
    var buffer := name + [0] + Masked(data, obf) + sums;
    assert buffer[..n] == name + [0] && buffer[n..n + |data|] == Masked(data, obf) && buffer[n + |data|..] == sums;
    MaskedTwice(data, obf);
    var all := buffer[..n] + data + sums;
    assert all == name + [0] + (data + sums);
    NameEnds(name, data + sums);
  }

  lemma HeadOfRecord(s: Source, inst: seq<bv8>, digest: seq<bv8> -> seq<bv8>, more: seq<bv8>)
    requires Takes(s, |inst|) && |digest(s.data)| == SUMS_LEN
    ensures var name := BaseName(s.path);
      var blob := Record(name, s.data, inst[..|s.data|], digest(s.data)) + more;
      && Get32(blob[..4]) == |name| + 1 && Get32(blob[4..8]) == |s.data|
      && blob[8..] == name + [0] + Masked(s.data, inst[..|s.data|]) + digest(s.data) + more
  {
    hide Put32, Get32, Masked, BaseName;
    var name := BaseName(s.path);
    var body := name + [0] + Masked(s.data, inst[..|s.data|]) + digest(s.data);
    var a, b := Put32(|name| + 1), Put32(|s.data|);
    var blob := Record(name, s.data, inst[..|s.data|], digest(s.data)) + more;
    assert blob == a + b + body + more;
    assert blob[..4] == a && blob[4..8] == b && blob[8..] == body + more;
    GetPut(|name| + 1);
    GetPut(|s.data|);
  }

  lemma RecordRead(s: Source, inst: seq<bv8>, digest: seq<bv8> -> seq<bv8>, more: seq<bv8>)
    requires Takes(s, |inst|) && Fits(s) && NulFree(s.path) && |digest(s.data)| == SUMS_LEN
    ensures var blob := Record(BaseName(s.path), s.data, inst[..|s.data|], digest(s.data)) + more;
      var next := ExtractFrom(more, inst[|s.data|..], digest);
      ExtractFrom(blob, inst, digest) == next.(files := [File(BaseName(s.path), s.data)] + next.files)
  {
    hide Processed, Get32, Masked, BaseName, Record, NulFree, HasNul, CStr;
    var name := BaseName(s.path);
    NameNulFree(s.path);
    HeadOfRecord(s, inst, digest, more);
    RecordProcessed(name, s.data, inst[..|s.data|], digest);
    var blob := Record(name, s.data, inst[..|s.data|], digest(s.data)) + more;
    var body := name + [0] + Masked(s.data, inst[..|s.data|]) + digest(s.data);
    var total := |name| + 1 + |s.data|;
    assert blob[8..][..total + SUMS_LEN] == body && blob[8..][total + SUMS_LEN..] == more;
    NameEndsRaw(name, Masked(s.data, inst[..|s.data|]), digest(s.data));
  }

  /** The name's own NUL ends the progress message, whatever the mask does to the data. */
  lemma NameEndsRaw(name: seq<bv8>, masked: seq<bv8>, sums: seq<bv8>)
    requires NulFree(name)
    ensures HasNul(name + [0] + masked + sums)
  {
    assert name + [0] + masked + sums == name + [0] + (masked + sums);
    NameEnds(name, masked + sums);
  }

  lemma NameNulFree(path: seq<bv8>)
    requires NulFree(path)
    ensures NulFree(BaseName(path))
  {
  }

  lemma TooLongRead(s: Source, inst: seq<bv8>, digest: seq<bv8> -> seq<bv8>, more: seq<bv8>)
    requires Takes(s, |inst|) && !Fits(s) && |digest(s.data)| == SUMS_LEN
    ensures ExtractFrom(Record(BaseName(s.path), s.data, inst[..|s.data|], digest(s.data)) + more, inst, digest).status
        == Failed
  {
    hide Processed, Get32, Masked, BaseName, Record;
    HeadOfRecord(s, inst, digest, more);
  }

  lemma EndRead(inst: seq<bv8>, digest: seq<bv8> -> seq<bv8>)
    ensures ExtractFrom(END, inst, digest) == Extraction(Done, [], 0, |inst|)
  {
    hide Get32, Processed;
    ZeroRead();
    assert END[..4] == [0, 0, 0, 0] && END[4..8] == [0, 0, 0, 0];
  }

  lemma ZeroRead()
    ensures Get32([0, 0, 0, 0]) == 0
  {
  }

  /** Names and contents come back in order, with the mask read in step and nothing left before the end mark is
      passed. */
  lemma {:induction false} ExtractsAll(sources: seq<Source>, inst: seq<bv8>, digest: seq<bv8> -> seq<bv8>)
    requires TakesAll(sources, |inst|) && forall s :: |digest(s)| == SUMS_LEN
    requires forall i :: 0 <= i < |sources| ==> NulFree(sources[i].path) && Fits(sources[i])
    ensures Sizes(sources) <= |inst|
    ensures ExtractFrom(Records(sources, inst, digest) + END, inst, digest)
         == Extraction(Done, FilesOf(sources), 0, |inst| - Sizes(sources))
  {
    hide Record, ExtractFrom, Takes, Fits, BaseName;
    if sources == [] {
      assert Records(sources, inst, digest) + END == END;
      EndRead(inst, digest);
    } else {
      var s := sources[0];
      TakesEnough(s, |inst|);
      var more := Records(sources[1..], inst[|s.data|..], digest) + END;
      ExtractsAll(sources[1..], inst[|s.data|..], digest);
      RecordRead(s, inst, digest, more);
      assert Records(sources, inst, digest) + END
          == Record(BaseName(s.path), s.data, inst[..|s.data|], digest(s.data)) + more;
    }
  }

  lemma TakesEnough(s: Source, left: nat)
    requires Takes(s, left)
    ensures |s.data| <= left && |s.data| < INT32_LIMIT && |BaseName(s.path)| + 1 < INT32_LIMIT
  {
  }

  lemma {:induction false} FailsOnTooLong(sources: seq<Source>, inst: seq<bv8>, digest: seq<bv8> -> seq<bv8>, k: nat)
    requires TakesAll(sources, |inst|) && forall s :: |digest(s)| == SUMS_LEN
    requires k < |sources| && !Fits(sources[k]) && forall i :: 0 <= i < |sources| ==> NulFree(sources[i].path)
    ensures ExtractFrom(Records(sources, inst, digest) + END, inst, digest).status == Failed
  {
    hide Record, ExtractFrom, Takes, Fits, BaseName;
    var s := sources[0];
    TakesEnough(s, |inst|);
    var more := Records(sources[1..], inst[|s.data|..], digest) + END;
    assert Records(sources, inst, digest) + END
        == Record(BaseName(s.path), s.data, inst[..|s.data|], digest(s.data)) + more;
    if Fits(s) {
      FailsOnTooLong(sources[1..], inst[|s.data|..], digest, k - 1);
      RecordRead(s, inst, digest, more);
    } else {
      TooLongRead(s, inst, digest, more);
    }
  }

  /** An archive that create_blob made gives everything back exactly when each record's lengths add up in 32 bits. */
  lemma RoundTrip(sources: seq<Source>, inst: seq<bv8>, digest: seq<bv8> -> seq<bv8>)
    requires TakesAll(sources, |inst|) && forall s :: |digest(s)| == SUMS_LEN
    requires forall i :: 0 <= i < |sources| ==> NulFree(sources[i].path)
    ensures Sizes(sources) <= |inst|
    ensures ExtractFrom(Records(sources, inst, digest) + END, inst, digest)
              == Extraction(Done, FilesOf(sources), 0, |inst| - Sizes(sources))
            <==> forall i :: 0 <= i < |sources| ==> Fits(sources[i])
  {
    hide ExtractFrom, Fits;
    SizesFit(sources, |inst|);
    if forall i :: 0 <= i < |sources| ==> Fits(sources[i]) {
      ExtractsAll(sources, inst, digest);
    } else {
      var k: nat :| k < |sources| && !Fits(sources[k]);
      FailsOnTooLong(sources, inst, digest, k);
    }
  }

  /** There are such archives: a name of one character with as much data as the writer takes. */
  lemma TooLongExists() returns (s: Source, left: nat)
    ensures NulFree(s.path) && Takes(s, left) && !Fits(s)
  {
    s, left := Source([0x61], seq(INT32_LIMIT - 1, _ => 0)), INT32_LIMIT - 1;
    assert BaseName([0x61]) == [0x61];
  }

  lemma {:induction false} SizesFit(sources: seq<Source>, left: nat)
    requires TakesAll(sources, left)
    ensures Sizes(sources) <= left
    decreases |sources|
  {
    if sources != [] {
      SizesFit(sources[1..], left - |sources[0].data|);
    }
  }
}
