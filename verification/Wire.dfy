/** The octets on the wire, as any other implementation of the protocol sees them. */
module Wire {
  import opened Octets
  import opened Crc
  import opened Frames
  import opened Protocol
  import opened Framing

  // ---------- the check sequence ----------

  lemma OnesCancel()
    ensures Update(Update(PRESET, 0xff), 0xff) == 0
  {
  }

  lemma Complement(o: Octet, c: Fcs)
    ensures Xor(!o, 0xff) == o && Xor16(0, c) == c == Xor16(c, 0)
  {
  }

  lemma FirstTwoComplemented(a: Octet, b: Octet)
    ensures Update(Update(PRESET, a), b) == Update(Update(0, !a), !b)
  {
    OnesCancel();
    hide Update, Xor, Xor16;
    Complement(a, PRESET);
    Complement(b, Update(Update(0, !a), !b));
    UpdateLinear(0, !a, PRESET, 0xff);
    UpdateLinear(Update(0, !a), !b, Update(PRESET, 0xff), 0xff);
  }

  lemma FoldTwo(c: Fcs, a: Octet, b: Octet, s: seq<Octet>)
    ensures Fold(c, [a, b] + s) == Fold(Update(Update(c, a), b), s)
  {
    hide Update;
    FoldConcat(c, [a, b], s);
    FoldPair(c, [a, b]);
    assert [a, b][..0] == [];
  }

  /** Started from c, the register ends as if it had been started from zero and the first sixteen
      bits had been complemented. */
  ghost predicate ComplementsStart(c: Fcs) {
    forall a, b, s :: Fold(c, [a, b] + s) == Fold(0, [!a, !b] + s)
  }

  /** That is what the preset is for, and no other value does it. */
  lemma PresetExactly(c: Fcs)
    ensures ComplementsStart(c) <==> c == PRESET
  {
    hide Update;
    if c == PRESET {
      forall a, b, s ensures Fold(c, [a, b] + s) == Fold(0, [!a, !b] + s) {
        FoldTwo(c, a, b, s);
        FoldTwo(0, !a, !b, s);
        FirstTwoComplemented(a, b);
      }
    } else if ComplementsStart(c) {
      var z: Octet := 0;
      OnlyPreset(c, z);
    }
  }

  lemma OnlyPreset(c: Fcs, z: Octet)
    requires Fold(c, [z, z] + []) == Fold(0, [!z, !z] + [])
    ensures c == PRESET
  {
    hide Update, Fold;
    FoldTwo(c, z, z, []);
    FoldTwo(0, !z, !z, []);
    NothingFolded(Update(Update(c, z), z));
    NothingFolded(Update(Update(0, !z), !z));
    FirstTwoComplemented(z, z);
    UpdateInjective(Update(c, z), Update(PRESET, z), z);
    UpdateInjective(c, PRESET, z);
  }

  lemma NothingFolded(c: Fcs)
    ensures Fold(c, []) == c
  {
  }

  // ---------- headers and escapes ----------

  /** The header octet of each kind of frame. */
  lemma HeaderOctets(s: Seq)
    ensures MakeHeader(Usr, s) as int == s
    ensures MakeHeader(Rtx, s) as int == 0x40 + s
    ensures MakeHeader(Nak, s) as int == 0x80 + s
    ensures MakeHeader(FrameKind.Syn, s) as int == 0xc0 + s
  {
    OctetOf(s);
    Above(s as bv8);
  }

  lemma Above(x: Octet)
    requires x < 64
    ensures x | (0 << 6) == x && x | (1 << 6) == x + 0x40 && x | (2 << 6) == x + 0x80 && x | (3 << 6) == x + 0xc0
  {
  }

  lemma EscapedOctets(o: Octet)
    ensures o == 0x7e ==> Escape(o) == [0x7d, 0x5e]
    ensures o == 0x7d ==> Escape(o) == [0x7d, 0x5d]
    ensures o != 0x7e && o != 0x7d ==> Escape(o) == [o]
  {
  }

  lemma StuffMore(s: seq<Octet>, o: Octet)
    ensures Stuff(s + [o]) == Stuff(s) + Escape(o)
  {
    assert (s + [o])[..|s|] == s;
  }

  lemma FoldMore(c: Fcs, s: seq<Octet>, o: Octet)
    ensures Fold(c, s + [o]) == Update(Fold(c, s), o)
  {
    assert (s + [o])[..|s|] == s;
  }

  // ---------- whole frames ----------

  /** Octets that need no escape. */
  lemma {:induction false} PlainStuff(s: seq<Octet>)
    requires forall o <- s :: !IsReserved(o)
    ensures Stuff(s) == s
  {
    if s == [] {
    } else {
      var n := |s| - 1;
      PlainStuff(s[..n]);
      assert !IsReserved(s[n]) && s[..n] + [s[n]] == s;
    }
  }

  lemma TrailerOctets(low: Octet, high: Octet)
    ensures Trailer(!(((high as bv16) << 8) | (low as bv16))) == [low, high]
  {
  }

  /** A header without payload and its check sequence. */
  lemma BareHeader(h: Octet, low: Octet, high: Octet)
    requires Update(PRESET, h) == !(((high as bv16) << 8) | (low as bv16))
    requires !IsReserved(h) && !IsReserved(low) && !IsReserved(high)
    ensures EncodeRaw(h, []) == [0x7e, h, low, high, 0x7e]
  {
    TrailerOctets(low, high);
    FoldOne(PRESET, h);
    hide Update, Stuff, Trailer, Fold, IsReserved;
    assert [h] + [] == [h];
    assert Body(h, []) == [h, low, high];
    PlainStuff([h, low, high]);
  }

  /** The five control frames of a handshake, and a NAK for packet zero, octet by octet. */
  lemma ControlFramesOnWire()
    ensures Encode(Control(FrameKind.Syn, SEQ_SYN0)) == [0x7e, 0xc0, 0x74, 0x36, 0x7e]
    ensures Encode(Control(FrameKind.Syn, SEQ_SYN1)) == [0x7e, 0xc1, 0xfd, 0x27, 0x7e]
    ensures Encode(Control(FrameKind.Syn, SEQ_SYN2)) == [0x7e, 0xc2, 0x66, 0x15, 0x7e]
    ensures Encode(Control(FrameKind.Syn, SEQ_SYN_DIS)) == [0x7e, 0xc3, 0xef, 0x04, 0x7e]
    ensures Encode(Control(Nak, 0)) == [0x7e, 0x80, 0x70, 0x74, 0x7e]
  {
    BareHeader(0xc0, 0x74, 0x36);
    BareHeader(0xc1, 0xfd, 0x27);
    BareHeader(0xc2, 0x66, 0x15);
    BareHeader(0xc3, 0xef, 0x04);
    BareHeader(0x80, 0x70, 0x74);
    Headers();
    hide EncodeRaw, MakeHeader;
  }

  lemma Headers()
    ensures MakeHeader(FrameKind.Syn, 0) == 0xc0 && MakeHeader(FrameKind.Syn, 1) == 0xc1
    ensures MakeHeader(FrameKind.Syn, 2) == 0xc2 && MakeHeader(FrameKind.Syn, 3) == 0xc3
    ensures MakeHeader(Nak, 0) == 0x80 && MakeHeader(Usr, 0) == 0x00
  {
  }

  /** A user frame whose payload is a FLAG and an ESC. */
  lemma UserFrameOnWire()
    ensures Encode(Frame(Usr, 0, [0x7e, 0x7d])) == [0x7e, 0x00, 0x7d, 0x5e, 0x7d, 0x5d, 0x7a, 0x04, 0x7e]
  {
    Headers();
    UserTrailer();
    UserStuffed();
    hide Fold, Trailer, Stuff, MakeHeader;
    assert Body(0x00, [0x7e, 0x7d]) == [0x00, 0x7e, 0x7d, 0x7a, 0x04];
  }

  lemma UserTrailer()
    ensures Trailer(Fold(PRESET, [0x00] + [0x7e, 0x7d])) == [0x7a, 0x04]
  {
    assert Update(PRESET, 0x00) == 0x0f87 && Update(0x0f87, 0x7e) == 0x6a41 && Update(0x6a41, 0x7d) == 0xfb85;
    assert Trailer(0xfb85) == [0x7a, 0x04];
    var s: seq<Octet> := [0x00];
    hide Update, Trailer;
    FoldOne(PRESET, 0x00);
    FoldMore(PRESET, s, 0x7e);
    FoldMore(PRESET, s + [0x7e], 0x7d);
    assert s + [0x7e] + [0x7d] == [0x00] + [0x7e, 0x7d];
    assert Fold(PRESET, s) == 0x0f87;
    assert Fold(PRESET, s + [0x7e]) == 0x6a41;
  }

  lemma UserStuffed()
    ensures Stuff([0x00, 0x7e, 0x7d, 0x7a, 0x04]) == [0x00, 0x7d, 0x5e, 0x7d, 0x5d, 0x7a, 0x04]
  {
    hide Stuff, Escape;
    var s, t: seq<Octet> := [0x00], [0x7a, 0x04];
    PlainStuff(s);
    PlainStuff(t);
    EscapedOctets(0x7e);
    EscapedOctets(0x7d);
    hide IsReserved;
    StuffMore(s, 0x7e);
    StuffMore(s + [0x7e], 0x7d);
    StuffConcat(s + [0x7e] + [0x7d], t);
    assert s + [0x7e] + [0x7d] + t == [0x00, 0x7e, 0x7d, 0x7a, 0x04];
    assert Stuff(s + [0x7e] + [0x7d] + t) == s + [0x7d, 0x5e] + [0x7d, 0x5d] + t;
  }

  /** Octets between frames: a second FLAG is a keepalive and a second ESC adds nothing. */
  lemma RepeatedOctets(e: Endpoint)
    requires RxValid(e.rx)
    ensures var f := Deliver(e, 0x7e).end; RxValid(f.rx) && Deliver(f, 0x7e) == Trace(f, [], [])
    ensures var x := Deliver(e, 0x7d);
            RxValid(x.end.rx) && Deliver(x.end, 0x7d) == x == Trace(Endpoint(x.end.rx, e.peer), [], [])
  {
    hide HandleFrame, Fold;
  }
}
