/** The scrambled commands of the TrackIR 5 v3: the host's encoders and the device's decoder.

    rand() is any choice in its range, and the filling of a packet is arbitrary.
 */
module Obfuscation {

  const PACKET_LENGTH := 24

  // ----- on single bytes -----

  function High(b: bv8): (n: int)
    ensures 0 <= n < 16
  {
    assert b >> 4 < 16;
    (b >> 4) as int
  }

  function Low(b: bv8): (n: int)
    ensures 0 <= n < 16
  {
    assert b & 0x0F < 16;
    (b & 0x0F) as int
  }

  function Key(a: bv8, b: bv8): bv8 {
    (a << 4) + b
  }

  lemma KeyNibbles(a: bv8, b: bv8)
    requires 1 <= a <= 15 && 1 <= b <= 15
    ensures 1 <= High(Key(a, b)) <= 15 && 1 <= Low(Key(a, b)) <= 15
  {
    assert Key(a, b) >> 4 == a && Key(a, b) & 0x0F == b;
  }

  function Mask(c: bv8, ma: bv8, mb: bv8): bv8 {
    c ^ (0x69 ^ ma ^ mb)
  }

  function Unmask(c: bv8, mb: bv8, ma: bv8): bv8 {
    c ^ mb ^ ma ^ 0x69
  }

  lemma UnmaskMask(c: bv8, ma: bv8, mb: bv8)
    ensures Unmask(Mask(c, ma, mb), mb, ma) == c
  {
  }

  function Gather(a: bv8, b: bv8, c: bv8, d: bv8): bv8 {
    (a & 8) | (b & 4) | (c & 2) | (d & 1)
  }

  function Slot(r: bv8): (n: int)
    requires r < 16
    ensures 0 <= n < 16
  {
    r as int
  }

  lemma GatherSmall(a: bv8, b: bv8, c: bv8, d: bv8)
    ensures Gather(a, b, c, d) < 16
  {
  }

  /** Writes the bit of r under the mask into b. */
  function Stamp(b: bv8, r: bv8, mask: bv8): bv8 {
    b ^ ((b ^ r) & mask)
  }

  lemma GatherStamped(a: bv8, b: bv8, c: bv8, d: bv8, r: bv8)
    requires r < 16
    ensures Gather(Stamp(a, r, 8), Stamp(b, r, 4), Stamp(c, r, 2), Stamp(d, r, 1)) == r
  {
  }

  predicate SameLow(b: bv8, c: bv8) {
    b & 0x0F == c & 0x0F
  }

  /** Only the low halves of the bytes matter for the index. */
  lemma GatherLow(a: bv8, b: bv8, c: bv8, d: bv8, a': bv8, b': bv8, c': bv8, d': bv8)
    requires SameLow(a, a') && SameLow(b, b') && SameLow(c, c') && SameLow(d, d')
    ensures Gather(a, b, c, d) == Gather(a', b', c', d')
  {
  }

  function PackNibble(v: bv8, b: bv8, key: bv8): bv8 {
    ((v << 4) | (b & 0x0F)) ^ (key & 0xF0)
  }

  function UnpackNibble(b: bv8, key: bv8): bv8 {
    ((b ^ key) >> 4) & 7
  }

  lemma NibblePacked(v: bv8, b: bv8, key: bv8)
    ensures UnpackNibble(PackNibble(v, b, key), key) == v & 7
    ensures SameLow(PackNibble(v, b, key), b)
  {
  }

  function TopBits(b: bv8, r: bv8): bv8 {
    (r << 6) | (b & 0x3F)
  }

  lemma TopBitsLow(b: bv8, r: bv8)
    ensures SameLow(TopBits(b, r), b) && SameLow(b, b)
  {
  }

  function Xor(a: bv8, b: bv8): bv8 {
    a ^ b
  }

  lemma XorTwice(a: bv8, b: bv8)
    ensures Xor(Xor(a, b), a) == b
  {
  }

  lemma SmallArgument(v: bv8)
    ensures v & 7 == v <==> v <= 7
  {
  }

  // ----- the device -----

  /** The index spread over the low bits of bytes 1 to 4. */
  function HiddenIndex(p: seq<bv8>): (r: bv8)
    requires |p| == PACKET_LENGTH
    ensures r < 16
  {
    GatherSmall(p[1], p[2], p[3], p[4]);
    Gather(p[1], p[2], p[3], p[4])
  }

  function CommandByte(p: seq<bv8>): bv8
    requires |p| == PACKET_LENGTH
  {
    Unmask(p[0], p[Low(p[17])], p[High(p[17])])
  }

  predicate IsRegisterCommand(c: bv8) {
    c == 0x19 || c == 0x23
  }

  /** A register command with hidden index 0 would make the decoder read before the packet. */
  predicate Decodable(p: seq<bv8>) {
    |p| == PACKET_LENGTH && (IsRegisterCommand(CommandByte(p)) ==> Slot(HiddenIndex(p)) != 0)
  }

  /** The command the device reads out of a packet. */
  function Decode(p: seq<bv8>): seq<bv8>
    requires Decodable(p)
  {
    var c, r := CommandByte(p), Slot(HiddenIndex(p));
    if c == 0x1A then [c, UnpackNibble(p[r], p[16])]
    else if IsRegisterCommand(c) then [c, Xor(p[r], p[16]), Xor(p[r - 1], p[19]), Xor(p[r + 1], p[18])]
    else [c]
  }

  lemma Halves(b: bv8)
    ensures b as int == 16 * High(b) + Low(b)
  {
    var h, l := b >> 4, b & 0x0F;
    assert b == (h << 4) + l && h < 16 && l < 16;
    HalvesValue(b, h, l);
  }

  lemma HalvesValue(b: bv8, h: bv8, l: bv8)
    requires h < 16 && l < 16 && b == (h << 4) + l
    ensures b as int == 16 * h as int + l as int
  {
  }

  lemma IndexBits(p: seq<bv8>)
    requires |p| == PACKET_LENGTH
    ensures var r := HiddenIndex(p);
      r & 8 == p[1] & 8 && r & 4 == p[2] & 4 && r & 2 == p[3] & 2 && r & 1 == p[4] & 1 && Slot(r) == r as int
  {
    GatherBits(p[1], p[2], p[3], p[4]);
  }

  lemma GatherBits(a: bv8, b: bv8, c: bv8, d: bv8)
    ensures var r := Gather(a, b, c, d); r & 8 == a & 8 && r & 4 == b & 4 && r & 2 == c & 2 && r & 1 == d & 1
  {
  }

  /** The decoder in plain operators: the halves of byte 17 name the two bytes that unmask byte 0, a bit each of bytes 1
      to 4 names the byte with the argument. */
  lemma DecodedBytes(p: seq<bv8>)
    requires Decodable(p)
    ensures var r := HiddenIndex(p);
      && Decode(p)[0] == p[0] ^ p[Low(p[17])] ^ p[High(p[17])] ^ 0x69
      && p[17] as int == 16 * High(p[17]) + Low(p[17])
      && Slot(r) == r as int && r & 8 == p[1] & 8 && r & 4 == p[2] & 4 && r & 2 == p[3] & 2 && r & 1 == p[4] & 1
      && match Decode(p)[0]
         case 0x1A => Decode(p)[1..] == [((p[Slot(r)] ^ p[16]) >> 4) & 7]
         case 0x19 => Decode(p)[1..] == [p[Slot(r)] ^ p[16], p[Slot(r) - 1] ^ p[19], p[Slot(r) + 1] ^ p[18]]
         case 0x23 => Decode(p)[1..] == [p[Slot(r)] ^ p[16], p[Slot(r) - 1] ^ p[19], p[Slot(r) + 1] ^ p[18]]
         case _ => Decode(p)[1..] == []
  {
    Halves(p[17]);
    IndexBits(p);
    hide High, Low, Slot, Gather;
  }

  /** tir5v3::deobfuscate_command */
  method DeobfuscateCommand(packet: array<bv8>, command: array<bv8>) returns (len: nat)
    requires packet.Length == PACKET_LENGTH && command.Length == 4 && packet != command && Decodable(packet[..])
    modifies command
    ensures len <= 4 && command[..len] == Decode(packet[..])
  {
    hide Unmask, Gather, Slot, High, Low, UnpackNibble, Xor;
    var r1 := packet[17];
    command[0] := Unmask(packet[0], packet[Low(r1)], packet[High(r1)]);
    GatherSmall(packet[1], packet[2], packet[3], packet[4]);
    var r2 := Slot(Gather(packet[1], packet[2], packet[3], packet[4]));
    if command[0] == 0x1A {
      command[1] := UnpackNibble(packet[r2], packet[16]);
      len := 2;
    } else if command[0] == 0x19 || command[0] == 0x23 {
      command[1] := Xor(packet[r2], packet[16]);
      command[2] := Xor(packet[r2 - 1], packet[19]);
      command[3] := Xor(packet[r2 + 1], packet[18]);
      len := 4;
    } else {
      len := 1;
    }
  }

  // ----- the host -----

  method Rand() returns (b: bv8)
  {
    b := *;
  }

  method RandRange(l: bv8, h: bv8) returns (r: bv8)
    requires l <= h
    ensures l <= r <= h
  {
    r := *;
    if r < l || h < r {
      r := h;
    }
  }

  method FillPacket(v1: bv8) returns (packet: array<bv8>)
    ensures fresh(packet) && packet.Length == PACKET_LENGTH && packet[0] == v1
  {
    packet := new bv8[PACKET_LENGTH];
    packet[0] := v1;
    for i := 1 to PACKET_LENGTH
      invariant packet[0] == v1
    {
      packet[i] := Rand();
    }
  }

  /** send_packet_tir5v3 up to the transfer: byte 0 is masked with two of the others, byte 17 says which. */
  method MaskCommand(packet: array<bv8>)
    requires packet.Length == PACKET_LENGTH
    modifies packet
    ensures CommandByte(packet[..]) == old(packet[0])
    ensures forall i :: 1 <= i < PACKET_LENGTH && i != 17 ==> packet[i] == old(packet[i])
  {
    var a := RandRange(1, 15);
    var b := RandRange(1, 15);
    KeyNibbles(a, b);
    hide High, Low, Mask, Unmask, Key;
    var r1 := Key(a, b);
    packet[17] := r1;
    UnmaskMask(packet[0], packet[High(r1)], packet[Low(r1)]);
    packet[0] := Mask(packet[0], packet[High(r1)], packet[Low(r1)]);
  }

  /** The index r is written into bytes 1 to 4. */
  method HideIndex(packet: array<bv8>, r: bv8)
    requires packet.Length == PACKET_LENGTH && r < 16
    modifies packet
    ensures HiddenIndex(packet[..]) == r
    ensures forall i :: 0 <= i < PACKET_LENGTH && !(1 <= i <= 4) ==> packet[i] == old(packet[i])
  {
    hide Stamp, Gather;
    GatherStamped(packet[1], packet[2], packet[3], packet[4], r);
    packet[1] := Stamp(packet[1], r, 8);
    packet[2] := Stamp(packet[2], r, 4);
    packet[3] := Stamp(packet[3], r, 2);
    packet[4] := Stamp(packet[4], r, 1);
  }

  lemma SlotBounds(r: bv8)
    requires r < 16
    ensures 6 <= r <= 14 ==> 6 <= Slot(r) <= 14
    ensures 2 <= r <= 14 ==> 2 <= Slot(r) <= 14
  {
  }

  /** The three arguments go around the hidden index, out of the way of the bytes that carry it. */
  method PlaceBytes(packet: array<bv8>, r: nat, v2: bv8, v3: bv8, v4: bv8)
    requires packet.Length == PACKET_LENGTH && 6 <= r <= 14
    modifies packet
    ensures HiddenIndex(packet[..]) == old(HiddenIndex(packet[..])) && packet[0] == old(packet[0])
    ensures Xor(packet[r], packet[16]) == v2 && Xor(packet[r - 1], packet[19]) == v3
        && Xor(packet[r + 1], packet[18]) == v4
  {
    hide Xor, Gather;
    XorTwice(packet[16], v2);
    XorTwice(packet[19], v3);
    XorTwice(packet[18], v4);
    packet[r] := Xor(packet[16], v2);
    packet[r - 1] := Xor(packet[19], v3);
    packet[r + 1] := Xor(packet[18], v4);
  }

  /** send_packet_4_tir5v3: the device reads back exactly the four bytes. */
  method EncodeFour(v1: bv8, v2: bv8, v3: bv8, v4: bv8) returns (packet: array<bv8>)
    ensures packet.Length == PACKET_LENGTH && CommandByte(packet[..]) == v1 && Decodable(packet[..])
    ensures IsRegisterCommand(v1) ==> Decode(packet[..]) == [v1, v2, v3, v4]
  {
    packet := FillPacket(v1);
    var r1 := RandRange(6, 14);
    HideIndex(packet, r1);
    SlotBounds(r1);
    hide Slot, Xor, Gather, CommandByte;
    PlaceBytes(packet, Slot(r1), v2, v3, v4);
    MaskCommand(packet);
    assert HiddenIndex(packet[..]) == r1;
  }

  /** Writing into the upper halves of two bytes from the third on leaves the index alone. */
  method PlaceNibble(packet: array<bv8>, r: nat, v2: bv8)
    requires packet.Length == PACKET_LENGTH && 2 <= r <= 14
    modifies packet
    ensures HiddenIndex(packet[..]) == old(HiddenIndex(packet[..]))
    ensures UnpackNibble(packet[r], packet[16]) == v2 & 7
    ensures packet[0] == old(packet[0])
  {
    hide PackNibble, UnpackNibble, TopBits, SameLow, Gather;
    ghost var p := packet[..];
    var r2 := RandRange(0, 3);
    NibblePacked(v2, packet[r], packet[16]);
    TopBitsLow(packet[r + 1], r2);
    packet[r] := PackNibble(v2, packet[r], packet[16]);
    packet[r + 1] := TopBits(packet[r + 1], r2);
    forall i | 1 <= i <= 4
      ensures SameLow(packet[i], p[i])
    {
      TopBitsLow(p[i], r2);
    }
    GatherLow(packet[1], packet[2], packet[3], packet[4], p[1], p[2], p[3], p[4]);
  }

  /** send_packet_2_tir5v3: the data byte may be one of those that carry the index; three bits of the argument
      arrive. */
  method EncodeTwo(v1: bv8, v2: bv8) returns (packet: array<bv8>)
    ensures packet.Length == PACKET_LENGTH && CommandByte(packet[..]) == v1 && Decodable(packet[..])
    ensures v1 == 0x1A ==> Decode(packet[..]) == [v1, v2 & 7]
    ensures v1 == 0x1A ==> (Decode(packet[..]) == [v1, v2] <==> v2 <= 7)
  {
    packet := FillPacket(v1);
    var r1 := RandRange(2, 14);
    HideIndex(packet, r1);
    SlotBounds(r1);
    hide Slot, UnpackNibble, Gather, CommandByte;
    PlaceNibble(packet, Slot(r1), v2);
    MaskCommand(packet);
    assert HiddenIndex(packet[..]) == r1;
    SmallArgument(v2);
  }

  /** send_packet_1_tir5v3 */
  method EncodeOne(v1: bv8) returns (packet: array<bv8>)
    ensures packet.Length == PACKET_LENGTH && CommandByte(packet[..]) == v1
    ensures v1 != 0x1A && !IsRegisterCommand(v1) ==> Decodable(packet[..])
    ensures Decodable(packet[..]) ==> v1 == Decode(packet[..])[0]
    ensures Decodable(packet[..]) ==> (Decode(packet[..]) == [v1] <==> v1 != 0x1A && !IsRegisterCommand(v1))
  {
    packet := FillPacket(v1);
    MaskCommand(packet);
  }
}
