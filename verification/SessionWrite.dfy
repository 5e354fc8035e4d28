/** How the session writes PPP frames (src/session.rs): each goes through one buffer of
    4095 bytes. A frame that does not fit is not refused: slicing the buffer aborts the
    process. */
module SessionWrite {
  import opened Bytes
  import opened SstpFraming
  import PppCodec

  /** The packet written, or None for the abort. */
  function Written(payload: seq<byte>): Option<seq<byte>> {
    if HEADER_LEN + |payload| <= MAX_PACKET_LEN then Some(Encode(Frame(false, payload))) else None
  }

  /** Header and payload coalesced in the scratch buffer. */
  method WritePpp(scratch: array<byte>, payload: seq<byte>) returns (r: Option<seq<byte>>)
    requires scratch.Length == MAX_PACKET_LEN
    modifies scratch
    ensures r == Written(payload)
  {
    var total := HEADER_LEN + |payload|;
    if total > scratch.Length {
      return None;
    }
    scratch[0], scratch[1] := VERSION_1_0, 0;
    scratch[2], scratch[3] := (total / 256) % 16, total % 256;
    ghost var head := scratch[..4];
    assert head == Header(false, total);
    PppCodec.CopyInto(scratch, HEADER_LEN, payload);
    assert scratch[..total] == head + payload;
    return Some(scratch[..total]);
  }

  /** The frames of one answer, in order. */
  function WrittenAll(frames: seq<seq<byte>>): Option<seq<byte>> {
    if frames == [] then Some([])
    else
      var init, last := WrittenAll(frames[..|frames| - 1]), Written(frames[|frames| - 1]);
      if init.None? || last.None? then None else Some(init.value + last.value)
  }

  predicate FitsBuffer(frame: seq<byte>) {
    HEADER_LEN + |frame| <= MAX_PACKET_LEN
  }

  /** An answer goes out whole if and only if each of its frames fits. */
  lemma {:induction false} AllOrAbort(frames: seq<seq<byte>>)
    ensures WrittenAll(frames).Some? <==> forall i :: 0 <= i < |frames| ==> FitsBuffer(frames[i])
  {
    if frames != [] {
      var init, last := frames[..|frames| - 1], frames[|frames| - 1];
      AllOrAbort(init);
      assert forall i :: 0 <= i < |init| ==> init[i] == frames[i];
    }
  }

  lemma WrittenOne(frame: seq<byte>)
    ensures WrittenAll([frame]) == Written(frame)
  {
    var init := [frame][..0];
    assert WrittenAll(init) == Some([]);
    if Written(frame).Some? {
      assert [] + Written(frame).value == Written(frame).value;
    }
  }
}
