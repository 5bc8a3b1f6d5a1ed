/** Service capability lists: what `caps_to_list` reads out of a message, and what goes into one. */
module AvdtpCapabilities {
  import opened Options
  import opened Sequences

  type Byte = x: int | 0 <= x < 256

  const MEDIA_CODEC: Byte := 7
  const DELAY_REPORTING: Byte := 8

  /** A capability; its length byte is the number of its data bytes. */
  datatype Capability = Capability(category: Byte, data: seq<Byte>)

  predicate Encodable(caps: seq<Capability>) {
    forall k :: 0 <= k < |caps| ==> |caps[k].data| < 256
  }

  function Encode(cap: Capability): seq<Byte>
    requires |cap.data| < 256
  {
    [cap.category, |cap.data|] + cap.data
  }

  function Serialize(caps: seq<Capability>): seq<Byte>
    requires Encodable(caps)
  {
    if caps == [] then [] else Encode(caps[0]) + Serialize(caps[1..])
  }

  /** Whether a whole capability stands at the front. */
  predicate Complete(bytes: seq<Byte>) {
    |bytes| >= 2 && 2 + bytes[1] <= |bytes|
  }

  function Parse(bytes: seq<Byte>): (caps: seq<Capability>)
    decreases |bytes|
  {
    if !Complete(bytes) then []
    else [Capability(bytes[0], bytes[2..2 + bytes[1]])] + Parse(bytes[2 + bytes[1]..])
  }

  /** The last media codec capability that has room for its fixed part. */
  function CodecOf(caps: seq<Capability>, previous: Option<Capability>): Option<Capability> {
    if caps == [] then previous
    else
      var last := caps[|caps| - 1];
      if last.category == MEDIA_CODEC && |last.data| >= 2 then Some(last) else CodecOf(caps[..|caps| - 1], previous)
  }

  predicate ReportsDelay(caps: seq<Capability>) {
    exists k :: 0 <= k < |caps| && caps[k].category == DELAY_REPORTING
  }

  /** Reads the capabilities in the first `size` bytes; an incomplete one and everything behind it is left. */
  method CapsToList(data: array<Byte>, size: nat, previous: Option<Capability>)
    returns (caps: seq<Capability>, codec: Option<Capability>, delayReporting: bool)
    requires size <= data.Length
    ensures caps == Parse(data[..size])
    ensures codec == CodecOf(caps, previous) && delayReporting == ReportsDelay(caps)
  {
    caps, codec, delayReporting := [], previous, false;
    ghost var bytes := data[..size];
    var processed: nat := 0;
    ParsedNothing(bytes);
    while processed + 2 <= size
      invariant ParsedTo(bytes, processed, caps)
      invariant codec == CodecOf(caps, previous) && delayReporting == ReportsDelay(caps)
      decreases size - processed
    {
      var more;
      more, processed, caps, codec, delayReporting :=
        ReadNext(data, size, processed, bytes, caps, codec, delayReporting, previous);
      if !more {
        break;
      }
    }
    ParsedAll(bytes, processed, caps);
  }

  /** One turn of the loop; false when the record is cut off. */
  method ReadNext(data: array<Byte>, size: nat, p: nat, ghost bytes: seq<Byte>, caps: seq<Capability>,
                  codec: Option<Capability>, delayReporting: bool, ghost previous: Option<Capability>)
    returns (more: bool, p': nat, caps': seq<Capability>, codec': Option<Capability>, delayReporting': bool)
    requires p + 2 <= size <= data.Length && data[..size] == bytes && ParsedTo(bytes, p, caps)
    requires codec == CodecOf(caps, previous) && delayReporting == ReportsDelay(caps)
    ensures ParsedTo(bytes, p', caps')
    ensures codec' == CodecOf(caps', previous) && delayReporting' == ReportsDelay(caps')
    ensures if more then p < p' else p' == p && p + 2 + bytes[p + 1] > size
  {
    more, p', caps', codec', delayReporting' := false, p, caps, codec, delayReporting;
    var cap := ReadCapability(data, size, p, bytes);
    if cap.Some? {
      ParsedNext(bytes, p, caps, cap.value);
      caps', codec', delayReporting' := Append(caps, codec, delayReporting, cap.value, previous);
      more, p' := true, p + 2 + |cap.value.data|;
    }
  }

  /** What is read of the first `p` bytes is the front of what is read of all. */
  ghost predicate ParsedTo(bytes: seq<Byte>, p: nat, caps: seq<Capability>) {
    p <= |bytes| && caps + Parse(bytes[p..]) == Parse(bytes)
  }

  lemma ParsedNothing(bytes: seq<Byte>)
    ensures ParsedTo(bytes, 0, [])
  {
    assert bytes[0..] == bytes;
  }

  lemma ParsedNext(bytes: seq<Byte>, p: nat, caps: seq<Capability>, cap: Capability)
    requires ParsedTo(bytes, p, caps) && p + 2 <= |bytes| && p + 2 + bytes[p + 1] <= |bytes|
    requires cap == Capability(bytes[p], bytes[p + 2..p + 2 + bytes[p + 1]])
    ensures ParsedTo(bytes, p + 2 + bytes[p + 1], caps + [cap])
  {
    NextCapability(bytes, p);
    var rest := Parse(bytes[p + 2 + bytes[p + 1]..]);
    assert caps + ([cap] + rest) == caps + [cap] + rest;
  }

  lemma ParsedAll(bytes: seq<Byte>, p: nat, caps: seq<Capability>)
    requires ParsedTo(bytes, p, caps) && (p + 2 <= |bytes| ==> p + 2 + bytes[p + 1] > |bytes|)
    ensures caps == Parse(bytes)
  {
    assert Parse(bytes[p..]) == [] && caps + [] == caps;
  }

  /** The capability at position `p`, if all of it is there. */
  method ReadCapability(data: array<Byte>, size: nat, p: nat, ghost bytes: seq<Byte>) returns (cap: Option<Capability>)
    requires p + 2 <= size <= data.Length && data[..size] == bytes
    ensures cap.None? <==> p + 2 + bytes[p + 1] > size
    ensures cap.Some? ==> cap.value == Capability(bytes[p], bytes[p + 2..p + 2 + bytes[p + 1]])
  {
    var length := data[p + 1];
    assert bytes[p + 1] == data[..size][p + 1] == length;
    if p + 2 + length > size {
      return None;
    }
    SliceOfSlice(data[..], 0, size, p + 2, p + 2 + length);
    assert bytes[p] == data[..size][p] == data[p];
    assert data[..][0..size] == bytes;
    return Some(Capability(data[p], data[p + 2..p + 2 + length]));
  }

  /** Appends a capability and notes what it says of the codec and of delays. */
  method Append(caps: seq<Capability>, codec: Option<Capability>, delayReporting: bool, cap: Capability,
                ghost previous: Option<Capability>)
    returns (caps': seq<Capability>, codec': Option<Capability>, delayReporting': bool)
    requires codec == CodecOf(caps, previous) && delayReporting == ReportsDelay(caps)
    ensures caps' == caps + [cap]
    ensures codec' == CodecOf(caps', previous) && delayReporting' == ReportsDelay(caps')
  {
    caps', codec', delayReporting' := caps + [cap], codec, delayReporting;
    DelaySnoc(caps, cap);
    CodecSnoc(caps, cap, previous);
    if cap.category == MEDIA_CODEC && |cap.data| >= 2 {
      codec' := Some(cap);
    } else if cap.category == DELAY_REPORTING {
      delayReporting' := true;
    }
  }

  lemma NextCapability(bytes: seq<Byte>, p: nat)
    requires p + 2 <= |bytes| && p + 2 + bytes[p + 1] <= |bytes|
    ensures var end := p + 2 + bytes[p + 1];
      Parse(bytes[p..]) == [Capability(bytes[p], bytes[p + 2..end])] + Parse(bytes[end..])
  {
    var left, n := bytes[p..], bytes[p + 1];
    assert left[0] == bytes[p] && left[1] == n;
    assert left[2..2 + n] == bytes[p + 2..p + 2 + n] && left[2 + n..] == bytes[p + 2 + n..];
  }

  lemma DelaySnoc(caps: seq<Capability>, cap: Capability)
    ensures ReportsDelay(caps + [cap]) <==> ReportsDelay(caps) || cap.category == DELAY_REPORTING
  {
    var all := caps + [cap];
    if ReportsDelay(caps) {
      var k :| 0 <= k < |caps| && caps[k].category == DELAY_REPORTING;
      assert all[k].category == DELAY_REPORTING;
    }
    assert all[|caps|] == cap;
  }

  lemma CodecSnoc(caps: seq<Capability>, cap: Capability, previous: Option<Capability>)
    ensures CodecOf(caps + [cap], previous) ==
      if cap.category == MEDIA_CODEC && |cap.data| >= 2 then Some(cap) else CodecOf(caps, previous)
  {
    assert (caps + [cap])[..|caps|] == caps;
  }

  /** Puts a list into a message. */
  method WriteCaps(caps: seq<Capability>) returns (bytes: seq<Byte>)
    requires Encodable(caps)
    ensures bytes == Serialize(caps)
  {
    bytes := [];
    assert caps[0..] == caps;
    for i := 0 to |caps|
      invariant bytes + Serialize(caps[i..]) == Serialize(caps)
    {
      assert caps[i..][1..] == caps[i + 1..];
      assert bytes + (Encode(caps[i]) + Serialize(caps[i + 1..])) == (bytes + Encode(caps[i])) + Serialize(caps[i + 1..]);
      bytes := bytes + Encode(caps[i]);
    }
    assert bytes + [] == bytes;
  }

  /** What is written is read back. */
  lemma {:induction false} RoundTrip(caps: seq<Capability>)
    requires Encodable(caps)
    ensures Parse(Serialize(caps)) == caps
  {
    if caps != [] {
      var bytes, rest := Serialize(caps), Serialize(caps[1..]);
      var n := |caps[0].data|;
      RoundTrip(caps[1..]);
      assert bytes == Encode(caps[0]) + rest;
      assert bytes[2..2 + n] == caps[0].data && bytes[2 + n..] == rest;
      assert caps == [caps[0]] + caps[1..];
    }
  }

  /** Of arbitrary bytes, what is read is written back as a front part of them, and what remains does not begin with a
      whole capability. */
  lemma {:induction false} ParsedIsPrefix(bytes: seq<Byte>)
    ensures Encodable(Parse(bytes))
    ensures Serialize(Parse(bytes)) <= bytes && !Complete(bytes[|Serialize(Parse(bytes))|..])
    decreases |bytes|
  {
    if Complete(bytes) {
      var n := bytes[1];
      var rest := bytes[2 + n..];
      ParsedIsPrefix(rest);
      var caps := Parse(bytes);
      assert caps[1..] == Parse(rest);
      assert Serialize(caps) == Encode(caps[0]) + Serialize(Parse(rest));
      assert bytes == Encode(caps[0]) + rest;
      assert bytes[|Serialize(caps)|..] == rest[|Serialize(Parse(rest))|..];
    } else {
      assert bytes[0..] == bytes;
    }
  }

  /** The list that is read is the only one with that property. */
  lemma {:induction false} ParsedIsUnique(bytes: seq<Byte>, caps: seq<Capability>)
    requires Encodable(caps) && Serialize(caps) <= bytes && !Complete(bytes[|Serialize(caps)|..])
    ensures caps == Parse(bytes)
    decreases |caps|
  {
    if caps == [] {
      assert bytes[0..] == bytes;
    } else {
      var n := |caps[0].data|;
      var written, rest := Serialize(caps), Serialize(caps[1..]);
      assert written == Encode(caps[0]) + rest;
      assert bytes[..|written|] == written;
      assert bytes[0] == written[0] && bytes[1] == written[1];
      assert bytes[2..2 + n] == written[2..2 + n] == caps[0].data;
      assert bytes[2 + n..][..|rest|] == written[2 + n..] == rest;
      assert bytes[2 + n..][|rest|..] == bytes[|written|..];
      ParsedIsUnique(bytes[2 + n..], caps[1..]);
      assert caps == [caps[0]] + caps[1..];
    }
  }

  // ---------------------------------------------------------------- record by record

  /** Where the next record begins: behind its category, its length, and as many bytes as the length says. */
  lemma FirstRecord(bytes: seq<Byte>)
    ensures var caps := Parse(bytes);
      if |bytes| < 2 || |bytes| - 2 < bytes[1] then caps == []
      else
        && caps != [] && caps[0].category == bytes[0] && |caps[0].data| == bytes[1]
        && caps[0].data == bytes[2..2 + bytes[1]] && caps[1..] == Parse(bytes[2 + bytes[1]..])
  {
  }

  /** A record that names a codec: category 7, with at least two bytes of data. */
  predicate NamesCodec(cap: Capability) {
    cap.category == 7 && |cap.data| >= 2
  }

  /** The codec is the last record that names one; without any it stays what it was. */
  lemma {:induction false} CodecIsLast(caps: seq<Capability>, previous: Option<Capability>)
    ensures (forall k :: 0 <= k < |caps| ==> !NamesCodec(caps[k])) ==> CodecOf(caps, previous) == previous
    ensures forall k :: 0 <= k < |caps| && NamesCodec(caps[k]) && (forall j :: k < j < |caps| ==> !NamesCodec(caps[j])) ==>
      CodecOf(caps, previous) == Some(caps[k])
  {
    if caps != [] {
      var n := |caps| - 1;
      if !NamesCodec(caps[n]) {
        CodecIsLast(caps[..n], previous);
        assert forall k :: 0 <= k < n ==> caps[..n][k] == caps[k];
        forall k | 0 <= k < |caps| && NamesCodec(caps[k]) && (forall j :: k < j < |caps| ==> !NamesCodec(caps[j]))
          ensures CodecOf(caps, previous) == Some(caps[k])
        {
          assert k < n && NamesCodec(caps[..n][k]);
          assert forall j :: k < j < n ==> !NamesCodec(caps[..n][j]);
        }
      }
    }
  }

  /** A codec with its two bytes, delay reporting, and a record that is cut off. */
  lemma KnownList(bytes: seq<Byte>)
    requires bytes == [7, 2, 0, 1, 8, 0, 9, 1]
    ensures var caps := Parse(bytes);
      && caps == [Capability(7, [0, 1]), Capability(8, [])]
      && CodecOf(caps, None) == Some(Capability(7, [0, 1])) && ReportsDelay(caps)
      && Encodable(caps) && Serialize(caps) == [7, 2, 0, 1, 8, 0]
  {
    var codec, delay := Capability(7, [0, 1]), Capability(8, []);
    FirstRecord(bytes);
    FirstRecord(bytes[4..]);
    FirstRecord(bytes[6..]);
    assert bytes[4..][2..] == bytes[6..];
    assert Parse(bytes[4..]) == [delay] + [];
    assert bytes[2..4] == codec.data && bytes[4..][2..2] == [];
    assert Parse(bytes) == [codec] + Parse(bytes[4..]);
    assert [codec] + [delay] == [codec, delay];
    assert [codec, delay][1].category == DELAY_REPORTING;
    CodecIsLast([codec, delay], None);
    assert [codec, delay][1..] == [delay] && [delay][1..] == [];
    assert Serialize([delay]) == [8, 0];
  }
}
