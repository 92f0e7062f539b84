/** The simulated TrackIR 4: src/tir4_model.cpp on top of src/sn3_model.cpp. */
module TirDevice {
  import opened Checksum

  type Packet = seq<bv8>

  datatype Leds = Leds(red: bool, green: bool, blue: bool, ir: bool)

  const DARK := Leds(false, false, false, false)

  /** What a host can find out about the device; image is what was loaded since the last reset. */
  datatype State = State(videoOn: bool, cameraOn: bool, leds: Leds, threshold: bv8,
                         fwLoaded: bool, image: seq<bv8>, fwActive: bool, queue: seq<Packet>)

  const CONFIG: Packet := [0x14, 0x40, 0x03, 0x01, 0x01, 0x83, 0xF5, 0x05, 0x00, 0x00,
                           0x78, 0x01, 0x63, 0x01, 0x20, 0xB4, 0x00, 0x00, 0x00, 0x00]

  const WHATEVER: Packet := [0x06, 0x10, 0x03, 0x11, 0x21, 0x00]

  function Byte1(c: bv32): bv8 {
    ((c >> 8) & 0xFF) as bv8
  }

  function Byte0(c: bv32): bv8 {
    (c & 0xFF) as bv8
  }

  function StatusPacket(st: State): Packet {
    var sum := ImageSum(st.image);
    [0x07, 0x20, 0x01, if st.fwLoaded then 1 else 0, Byte1(sum), Byte0(sum), if st.fwActive then 2 else 1]
  }

  predicate On(b: bv8, bit: bv8) {
    b & bit != 0
  }

  /** The lamps the mask names take over the bit of leds, the others stay. */
  function Switched(was: Leds, leds: bv8, mask: bv8): Leds {
    Leds(if On(mask, 0x10) then On(leds, 0x10) else was.red,
         if On(mask, 0x20) then On(leds, 0x20) else was.green,
         if On(mask, 0x40) then On(leds, 0x40) else was.blue,
         if On(mask, 0x80) then On(leds, 0x80) else was.ir)
  }

  /** Each lamp has its bit. */
  lemma SwitchedBits(was: Leds, leds: bv8, mask: bv8)
    ensures var now := Switched(was, leds, mask);
      && (mask & 0x10 == 0 ==> now.red == was.red) && (mask & 0x10 != 0 ==> (now.red <==> leds & 0x10 != 0))
      && (mask & 0x20 == 0 ==> now.green == was.green) && (mask & 0x20 != 0 ==> (now.green <==> leds & 0x20 != 0))
      && (mask & 0x40 == 0 ==> now.blue == was.blue) && (mask & 0x40 != 0 ==> (now.blue <==> leds & 0x40 != 0))
      && (mask & 0x80 == 0 ==> now.ir == was.ir) && (mask & 0x80 != 0 ==> (now.ir <==> leds & 0x80 != 0))
  {
  }

  /** Packets whose arguments the device reads without looking at the length carry them. */
  predicate Complete(p: Packet) {
    && (p != [] && p[0] == 0x10 ==> |p| >= 3)
    && (p != [] && p[0] == 0x14 ==> |p| >= 2)
    && (p != [] && p[0] == 0x15 ==> |p| >= 4)
  }

  /** The state after a packet from the host. */
  function After(st: State, p: Packet): State
    requires Complete(p)
  {
    if p == [] then st
    else if p[0] == 0x1B then st.(fwLoaded := false, fwActive := false, image := [])
    else if p[0] == 0x1C then st.(fwLoaded := true, image := st.image + if |p| < 2 then [] else p[2..])
    else if p[0] == 0x1D then st.(queue := st.queue + [StatusPacket(st)])
    else if p[0] == 0x1F then st.(queue := st.queue + [WHATEVER])
    else if p[0] == 0x20 then st.(fwActive := true)
    else if p[0] == 0x10 then st.(leds := Switched(st.leds, p[1], p[2]))
    else if p[0] == 0x13 then st.(cameraOn := false)
    else if p[0] == 0x14 && p[1] == 0 then st.(videoOn := true, cameraOn := true)
    else if p[0] == 0x14 && p[1] == 1 then st.(videoOn := false)
    else if p[0] == 0x15 && p[2] == 1 && p[3] == 0 && 0x28 <= p[1] <= 0xFD then st.(threshold := p[1])
    else if p[0] == 0x17 then st.(queue := st.queue + [CONFIG])
    else st
  }

  class Device {
    var videoOn: bool
    var cameraOn: bool
    var leds: Leds
    var threshold: bv8
    var fwLoaded: bool
    var fwCsum: bv32
    var fwActive: bool
    var queue: seq<Packet>
    ghost var image: seq<bv8>

    /** The device checksum is that of the bytes received, and every queued reply fits the host's buffer. */
    ghost predicate Valid()
      reads this
    {
      && fwCsum == ImageSum(image)
      && forall k :: 0 <= k < |queue| ==> 0 < |queue[k]| <= 20
    }

    ghost function Abstract(): State
      reads this
    {
      State(videoOn, cameraOn, leds, threshold, fwLoaded, image, fwActive, queue)
    }

    constructor ()
      ensures Valid() && Abstract() == State(false, false, DARK, 0, false, [], false, [])
    {
      videoOn, cameraOn, leds, threshold := false, false, DARK, 0;
      fwLoaded, fwCsum, fwActive := false, 0, false;
      queue, image := [], [];
    }

    method SetLeds(newLeds: bv8, mask: bv8)
      requires Valid()
      modifies `leds
      ensures Valid() && leds == Switched(old(leds), newLeds, mask)
    {
      hide On;
      if On(mask, 0x80) {
        leds := leds.(ir := On(newLeds, 0x80));
      }
      if On(mask, 0x40) {
        leds := leds.(blue := On(newLeds, 0x40));
      }
      if On(mask, 0x20) {
        leds := leds.(green := On(newLeds, 0x20));
      }
      if On(mask, 0x10) {
        leds := leds.(red := On(newLeds, 0x10));
      }
    }

    /** The checksum runs over the bytes after the two-byte header and is masked once a packet. */
    method LoadFirmware(data: Packet)
      requires Valid()
      modifies `fwCsum, `fwLoaded, `image
      ensures Valid() && fwLoaded && image == old(image) + if |data| < 2 then [] else data[2..]
    {
      hide Step, Low16;
      ghost var image0, start := image, fwCsum;
      ghost var body := if |data| < 2 then [] else data[2..];
      var i := 2;
      while i < |data|
        invariant 2 <= i && (|data| < 2 || i <= |data|) && image == image0
        invariant fwCsum == Fold(start, body[..if |data| < 2 then 0 else i - 2])
      {
        assert body[..i - 1][..i - 2] == body[..i - 2];
        fwCsum := Step(fwCsum, data[i]);
        i := i + 1;
      }
      fwCsum := Low16(fwCsum);
      fwLoaded := true;
      assert body[..|body|] == body;
      image := image + body;
      PacketwiseMasking(image0, body);
    }

    /** tir4::get_status */
    method GetStatus()
      requires Valid()
      modifies `queue
      ensures Valid() && queue == old(queue) + [StatusPacket(old(Abstract()))]
    {
      var status: Packet := [0x07, 0x20, 0x01, 0x00, 0x00, 0x00, 0x01];
      status := status[3 := if fwLoaded then 1 else 0];
      status := status[4 := Byte1(fwCsum)];
      status := status[5 := Byte0(fwCsum)];
      status := status[6 := if fwActive then 2 else 1];
      assert status == StatusPacket(Abstract());
      queue := queue + [status];
    }

    /** tir4::send_packet, falling back to smartnav3::send_packet */
    method SendPacket(packet: Packet)
      requires Valid() && Complete(packet)
      modifies this
      ensures Valid() && Abstract() == After(old(Abstract()), packet)
    {
      if packet == [] {
        return;
      }
      var c := packet[0];
      if c == 0x1B {
        fwLoaded, fwActive, fwCsum, image := false, false, 0, [];
      } else if c == 0x1C {
        LoadFirmware(packet);
      } else if c == 0x1D {
        GetStatus();
      } else if c == 0x1F {
        queue := queue + [WHATEVER];
      } else if c == 0x20 {
        fwActive := true;
      } else {
        BaseSendPacket(packet);
      }
    }

    method BaseSendPacket(packet: Packet)
      requires Valid() && Complete(packet) && packet != [] && packet[0] !in {0x1B, 0x1C, 0x1D, 0x1F, 0x20}
      modifies this
      ensures Valid() && Abstract() == After(old(Abstract()), packet)
    {
      hide Switched;
      var c := packet[0];
      if c == 0x10 {
        SetLeds(packet[1], packet[2]);
      } else if c == 0x13 {
        cameraOn := false;
      } else if c == 0x14 {
        if packet[1] == 0 {
          videoOn, cameraOn := true, true;
        } else if packet[1] == 1 {
          videoOn := false;
        }
      } else if c == 0x15 {
        if packet[2] == 1 && packet[3] == 0 {
          if packet[1] >= 0x28 && packet[1] <= 0xFD {
            threshold := packet[1];
          }
        }
      } else if c == 0x17 {
        queue := queue + [CONFIG];
      }
    }

    /** A line of the stimulus file, if there is one: any bytes at all. */
    method ReadNext() returns (ok: bool, data: Packet)
    {
      ok, data := *, *;
    }

    /** smartnav3::receive_packet: queued replies first, then, while streaming, image data. */
    method ReceivePacket(buf: array<bv8>) returns (read: nat)
      requires Valid()
      modifies `queue, buf
      ensures Valid() && read <= buf.Length
      ensures forall i :: read <= i < buf.Length ==> buf[i] == old(buf[i])
      ensures old(queue) == [] ==> queue == [] && (!videoOn || !cameraOn ==> read == 0)
      ensures old(queue) != [] ==> queue == old(queue)[1..]
                                   && read == (if |old(queue)[0]| < buf.Length then |old(queue)[0]| else buf.Length)
                                   && buf[..read] == old(queue)[0][..read]
    {
      read := 0;
      if queue == [] {
        if !videoOn || !cameraOn {
          return;
        }
        var ok, data := ReadNext();
        if ok {
          read := CopyOut(data, buf);
        }
      } else {
        read := CopyOut(queue[0], buf);
        queue := queue[1..];
      }
    }

    method CopyOut(data: Packet, buf: array<bv8>) returns (n: nat)
      modifies buf
      ensures n == (if |data| < buf.Length then |data| else buf.Length) && buf[..n] == data[..n]
      ensures forall i :: n <= i < buf.Length ==> buf[i] == old(buf[i])
    {
      n := if |data| < buf.Length then |data| else buf.Length;
      for i := 0 to n
        invariant buf[..i] == data[..i]
        invariant forall k :: i <= k < buf.Length ==> buf[k] == old(buf[k])
      {
        buf[i] := data[i];
      }
    }
  }
}
