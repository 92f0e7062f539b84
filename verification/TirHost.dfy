/** The host's side of src/tir_hw.c for the TrackIR 4, talking to the simulated device.

    Sends always succeed.  The clock is arbitrary: whether a wait counts as timed
    out is a free choice.  The firmware file is a parameter.
 */
module TirHost {
  import opened Checksum
  import opened TirDevice

  const TIR_PACKET_SIZE := 16384

  datatype Status = Status(fwLoaded: bool, cfgFlag: bv8, fwCksum: bv32)

  /** What load_firmware finds: no file to open, or the bytes of the image. */
  datatype File = Missing | Image(bytes: seq<bv8>)

  function Streaming(st: State): bool {
    st.videoOn && st.cameraOn
  }

  function StatusOf(st: State): Status {
    Status(st.fwLoaded, if st.fwActive then 2 else 1, ImageSum(st.image))
  }

  /** All four lamps off, streaming off, nothing queued. */
  function Stopped(st: State): State {
    st.(videoOn := false, cameraOn := false, leds := DARK, queue := [])
  }

  /** The threshold byte the host sends. */
  function Clamped(val: bv32): bv8 {
    var v := if val > 253 then 253 else val;
    (if v < 30 then 30 else v) as bv8
  }

  /** Between 30 and 253 the byte is the value, outside the nearer of the two; the device takes it from 40 on. */
  lemma Accepted(val: bv32)
    ensures 0x28 <= Clamped(val) <= 0xFD <==> val >= 40
    ensures 30 <= val <= 253 ==> Clamped(val) as bv32 == val
    ensures (val < 30 ==> Clamped(val) == 30) && (val > 253 ==> Clamped(val) == 253)
  {
  }

  function Join(b1: bv8, b0: bv8): bv32 {
    ((b1 as bv32) << 8) + (b0 as bv32)
  }

  predicate HighByteFirst(high: bv8, low: bv8, sum: bv32) {
    sum >> 8 == high as bv32 && sum & 0xFF == low as bv32
  }

  lemma Recombined(sum: bv32)
    requires sum <= 0xFFFF
    ensures Join(Byte1(sum), Byte0(sum)) == sum && HighByteFirst(Byte1(sum), Byte0(sum), sum)
  {
  }

  lemma SumSmall(image: seq<bv8>)
    ensures ImageSum(image) <= 0xFFFF
  {
  }

  lemma StatusRead(st: State, p: Packet)
    requires p == StatusPacket(st)
    ensures |p| == 7 && p[0] == 0x07 && p[1] == 0x20
    ensures Status(p[3] == 1, p[6], Join(p[4], p[5])) == StatusOf(st)
    ensures HighByteFirst(p[4], p[5], ImageSum(st.image))
  {
    hide Fold, Byte1, Byte0, Join, ImageSum, HighByteFirst;
    SumSmall(st.image);
    Recombined(ImageSum(st.image));
  }

  /** Switching the four lamps off one by one. */
  lemma AllDark(leds: Leds)
    ensures Switched(Switched(Switched(Switched(leds, 0, 0x80), 0, 0x10), 0, 0x20), 0, 0x40) == DARK
  {
  }

  /** cksum_firmware */
  method CksumFirmware(firmware: seq<bv8>) returns (cksum: bv32)
    ensures cksum == ImageSum(firmware)
  {
    hide Step, Low16;
    cksum := 0;
    var i := 0;
    while i < |firmware|
      invariant 0 <= i <= |firmware| && cksum == Fold(0, firmware[..i])
    {
      assert firmware[..i + 1][..i] == firmware[..i];
      cksum := Step(cksum, firmware[i]);
      i := i + 1;
    }
    assert firmware[..|firmware|] == firmware;
    cksum := Low16(cksum);
  }

  class Host {
    const dev: Device
    const packet: array<bv8>

    constructor (dev: Device)
      ensures this.dev == dev && packet.Length == TIR_PACKET_SIZE && fresh(packet)
    {
      this.dev := dev;
      packet := new bv8[TIR_PACKET_SIZE];
    }

    ghost predicate Valid()
      reads dev
    {
      dev.Valid() && packet.Length == TIR_PACKET_SIZE
    }

    ghost function St(): State
      reads dev
    {
      dev.Abstract()
    }

    method Send(data: Packet)
      requires Valid() && Complete(data)
      modifies dev
      ensures Valid() && St() == After(old(St()), data)
    {
      dev.SendPacket(data);
    }

    /** The do-while loop that drains the reply queue; it ends because nothing streams. */
    method FlushPackets()
      requires Valid() && !Streaming(St())
      modifies dev`queue, packet
      ensures Valid() && St() == old(St()).(queue := [])
    {
      var t := dev.ReceivePacket(packet);
      while t > 0
        invariant Valid() && !Streaming(St()) && (t == 0 ==> dev.queue == [])
        decreases |dev.queue| + if t > 0 then 1 else 0
      {
        t := dev.ReceivePacket(packet);
      }
    }

    /** wiggle_leds_tir and turn_led_off_tir */
    method TurnLedOff(leds: bv8)
      requires Valid()
      modifies dev
      ensures Valid() && St() == old(St()).(leds := Switched(old(St()).leds, 0, leds & 0xF0))
    {
      Send([0x10, 0, leds & 0xF0]);
    }

    /** stop_camera_tir4 */
    method StopCamera()
      requires Valid()
      modifies dev
      ensures Valid() && St() == old(St()).(videoOn := false, cameraOn := false, leds := DARK)
    {
      AllDark(dev.leds);
      hide Switched, After;
      VideoOff();
      FlushFifo();
      TurnLedOff(0x80);
      TurnLedOff(0x10);
      TurnLedOff(0x20);
      TurnLedOff(0x40);
      CameraStop();
    }

    method VideoOff()
      requires Valid()
      modifies dev
      ensures Valid() && St() == old(St()).(videoOn := false)
    {
      Send([0x14, 0x01]);
    }

    /** flush_fifo_tir; the device ignores it. */
    method FlushFifo()
      requires Valid()
      modifies dev
      ensures Valid() && St() == old(St())
    {
      Send([0x12]);
    }

    method CameraStop()
      requires Valid()
      modifies dev
      ensures Valid() && St() == old(St()).(cameraOn := false)
    {
      Send([0x13]);
    }

    /** One reply is waiting: the inner loop of the two read functions takes it at once. */
    method ReceiveReply(first: bv8, anyFirst: bool, second: bv8) returns (t: nat)
      requires Valid() && |dev.queue| == 1 && |dev.queue[0]| > 2
      requires (anyFirst || dev.queue[0][0] == first) && dev.queue[0][1] == second
      modifies dev`queue, packet
      ensures Valid() && dev.queue == [] && t == |old(dev.queue)[0]| && packet[..t] == old(dev.queue)[0]
    {
      ghost var reply := dev.queue[0];
      t := 0;
      var found, expired := false, false;
      while !found && !expired
        invariant Valid() && !expired
        invariant if found then dev.queue == [] && t == |reply| && packet[..t] == reply else dev.queue == [reply]
        decreases |dev.queue|
      {
        t := dev.ReceivePacket(packet);
        assert packet[0] == packet[..t][0] && packet[1] == packet[..t][1];
        found := t > 2 && (anyFirst || packet[0] == first) && packet[1] == second;
        if !found {
          expired := *;
        }
      }
    }

    /** read_rom_data_tir */
    method ReadRomData() returns (ok: bool)
      requires Valid() && !Streaming(St())
      modifies dev, packet
      ensures ok && Valid() && St() == old(St()).(queue := [])
    {
      FlushPackets();
      var counter, found := 0, false;
      while counter < 10 && !found
        invariant Valid() && St() == old(St()).(queue := []) && (!found ==> counter == 0)
        decreases if found then 0 else 1
      {
        Send([0x17]);
        var t := ReceiveReply(0, true, 0x40);
        found := t > 2;
        if !found {
          counter := counter + 1;
        }
      }
      ok := true;
    }

    /** read_status_tir */
    method ReadStatus() returns (ok: bool, status: Status)
      requires Valid() && dev.queue == []
      modifies dev, packet
      ensures ok && Valid() && St() == old(St()) && status == StatusOf(St())
    {
      hide StatusPacket, StatusOf;
      ghost var st := St();
      status := Status(false, 0, 0);
      var counter, found := 0, false;
      while counter < 20 && !found
        invariant Valid() && St() == st && (!found ==> counter == 0)
        invariant found ==> packet[..7] == StatusPacket(st)
        decreases if found then 0 else 1
      {
        Send([0x1D]);
        StatusRead(st, StatusPacket(st));
        var t := ReceiveReply(0x07, false, 0x20);
        found := t > 2;
        if !found {
          counter := counter + 1;
        }
      }
      StatusRead(st, packet[..7]);
      status := Status(packet[3] == 1, packet[6], Join(packet[4], packet[5]));
      ok := true;
    }

    /** upload_firmware: chunks of up to 60 bytes that together are exactly the image. */
    method UploadFirmware(firmware: seq<bv8>)
      requires Valid()
      modifies dev
      ensures Valid() && dev.image == firmware
      ensures St() == old(St()).(fwActive := false, image := firmware, fwLoaded := firmware != [])
    {
      Send([0x1B]);
      var size, ptr := |firmware|, 0;
      while size > 0
        invariant Valid() && 0 <= size && ptr == |firmware| - size && 0 <= ptr
        invariant St() == old(St()).(fwActive := false, image := firmware[..ptr], fwLoaded := ptr > 0)
      {
        var len := if size > 60 then 60 else size;
        var buf: Packet := [0x1C, len as bv8] + firmware[ptr..ptr + len];
        assert buf[2..] == firmware[ptr..ptr + len];
        assert firmware[..ptr] + firmware[ptr..ptr + len] == firmware[..ptr + len];
        Send(buf);
        size := size - len;
        ptr := ptr + len;
      }
      assert firmware[..|firmware|] == firmware;
    }

    /** ltr_int_set_threshold_tir; the device refuses what the host's lower limit still lets through. */
    method SetThreshold(val: bv32)
      requires Valid()
      modifies dev
      ensures Valid() && St() == old(St()).(threshold := St().threshold)
      ensures if val < 40 then St().threshold == old(St()).threshold
              else St().threshold as bv32 == if val <= 253 then val else 253
    {
      Accepted(val);
      hide Clamped;
      Send([0x15, Clamped(val), 0x01, 0x00]);
    }

    /** init_camera_tir4 */
    method InitCamera(forceFwLoad: bool, file: File) returns (ok: bool)
      requires Valid()
      modifies dev, packet
      ensures Valid() && ok == file.Image?
      ensures !ok ==> St() == Stopped(old(St()))
      ensures ok ==>
        var st, image := old(St()), file.bytes;
        var upload := forceFwLoad || !st.fwLoaded || ImageSum(st.image) != ImageSum(image);
        && dev.fwCsum == ImageSum(image) && dev.fwActive
        && St() == Stopped(st).(
             fwActive := true,
             image := if upload then image else st.image,
             fwLoaded := if upload then image != [] else true,
             threshold := if upload || !st.fwActive then 0x82 else st.threshold)
    {
      StopCamera();
      FlushPackets();
      var status;
      ok := ReadRomData();
      if ok {
        ok, status := ReadStatus();
      }
      if ok {
        ok := file.Image?;
      }
      if ok {
        var cksum := CksumFirmware(file.bytes);
        if forceFwLoad || !status.fwLoaded || status.fwCksum != cksum {
          UploadFirmware(file.bytes);
        }
        ok, status := ReadStatus();
        ok := ok && status.fwCksum == cksum;
      }
      if ok {
        ok := Configure(status);
      }
    }

    /** The end of init_camera_tir4: the configuration is reloaded unless it is active already. */
    method Configure(status0: Status) returns (ok: bool)
      requires Valid() && dev.queue == [] && status0 == StatusOf(St())
      modifies dev, packet
      ensures Valid() && ok
      ensures St() == old(St()).(
        fwActive := true, threshold := if old(St()).fwActive then old(St()).threshold else 0x82)
    {
      var status := status0;
      ok := true;
      if status.cfgFlag == 1 {
        ghost var st := St();
        Send([0x20]);
        while status.cfgFlag != 2 && ok
          invariant Valid() && ok && St() == st.(fwActive := true)
          decreases if status.cfgFlag != 2 then 1 else 0
        {
          ok, status := ReadStatus();
        }
        Accepted(0x82);
        SetThreshold(0x82);
      } else {
        ok := status.cfgFlag == 2;
      }
    }
  }
}
