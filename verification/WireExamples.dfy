/** The examples of section 5.7 of RFC 6455, byte for byte. */
module WireExamples {
  import opened Bytes
  import opened Framing
  import opened Reassembly
  import opened Wrappers

  const HELLO: bytes := [0x48, 0x65, 0x6c, 0x6c, 0x6f]

  const EXAMPLE_KEY: Key := [0x37, 0xfa, 0x21, 0x3d]

  const MASKED_HELLO: bytes := [0x7f, 0x9f, 0x4d, 0x51, 0x58]

  lemma XorIs(a: byte, b: byte, c: byte)
    requires (a as bv8) ^ (b as bv8) == c as bv8
    ensures Xor(a, b) == c
  {
    hide Xor, Num;
    XorIsBitwise(a, b);
    NumOfBits(c);
    NumOfBits(Xor(a, b));
  }

  lemma HelloMasked()
    ensures Masked(EXAMPLE_KEY, HELLO) == MASKED_HELLO
  {
    hide Xor;
    XorIs(0x48, 0x37, 0x7f);
    XorIs(0x65, 0xfa, 0x9f);
    XorIs(0x6c, 0x21, 0x4d);
    XorIs(0x6c, 0x3d, 0x51);
    XorIs(0x6f, 0x37, 0x58);
  }

  /** The frames of the examples as they stand on the wire. */
  lemma ExampleFrames(key: Key)
    ensures EncodeFrame(Frame(true, false, TEXT, HELLO), false, key) == [0x81, 0x05, 0x48, 0x65, 0x6c, 0x6c, 0x6f]
    ensures EncodeFrame(Frame(true, false, TEXT, HELLO), true, EXAMPLE_KEY)
         == [0x81, 0x85, 0x37, 0xfa, 0x21, 0x3d, 0x7f, 0x9f, 0x4d, 0x51, 0x58]
    ensures EncodeFrame(Frame(false, false, TEXT, [0x48, 0x65, 0x6c]), false, key) == [0x01, 0x03, 0x48, 0x65, 0x6c]
    ensures EncodeFrame(Frame(true, false, CONTINUATION, [0x6c, 0x6f]), false, key) == [0x80, 0x02, 0x6c, 0x6f]
    ensures EncodeFrame(Frame(true, false, PING, HELLO), false, key) == [0x89, 0x05, 0x48, 0x65, 0x6c, 0x6c, 0x6f]
    ensures EncodeFrame(Frame(true, false, PONG, HELLO), true, EXAMPLE_KEY)
         == [0x8a, 0x85, 0x37, 0xfa, 0x21, 0x3d, 0x7f, 0x9f, 0x4d, 0x51, 0x58]
  {
    hide Masked;
    HelloMasked();
  }

  /** A compressed message has the first reserved bit set, and a CLOSE frame is opcode 8. */
  lemma OtherBits(key: Key)
    ensures EncodeFrame(Frame(true, true, TEXT, []), false, key) == [0xc1, 0x00]
    ensures EncodeFrame(Frame(false, false, BINARY, []), false, key) == [0x02, 0x00]
    ensures EncodeFrame(Frame(true, false, CLOSE, [0x03, 0xe8]), false, key) == [0x88, 0x02, 0x03, 0xe8]
  {
  }

  lemma LongHeaders(payload: bytes, key: Key)
    ensures |payload| == 256 ==>
              EncodeFrame(Frame(true, false, BINARY, payload), false, key) == [0x82, 0x7e, 0x01, 0x00] + payload
    ensures |payload| == 65536 ==>
              EncodeFrame(Frame(true, false, BINARY, payload), false, key)
              == [0x82, 0x7f, 0x00, 0x00, 0x00, 0x00, 0x00, 0x01, 0x00, 0x00] + payload
  {
    if |payload| == 256 {
      assert LengthField(256) == [0x01, 0x00];
    } else if |payload| == 65536 {
      assert LengthField(65536) == [0x00, 0x00, 0x00, 0x00, 0x00, 0x01, 0x00, 0x00];
    }
  }

  /** dispatch reads the masked example as the text "Hello", whatever follows it. */
  lemma HelloRead(tail: bytes, deflate: bool)
    ensures TakeFrame([0x81, 0x85, 0x37, 0xfa, 0x21, 0x3d, 0x7f, 0x9f, 0x4d, 0x51, 0x58] + tail, deflate)
         == Some((Frame(true, false, TEXT, HELLO), tail))
  {
    hide EncodeFrame, Masked, TakeFrame;
    ExampleFrames(EXAMPLE_KEY);
    TakeEncoded(WireFrame(Frame(true, false, TEXT, HELLO), true, EXAMPLE_KEY), tail, deflate);
  }
}
