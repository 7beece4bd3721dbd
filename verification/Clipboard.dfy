/** The clipboard manager: writing a network payload into the OS clipboard and telling the
    watcher's echo of that write from a change made by the user. */
module Clipboard {
  import opened Wire
  import opened Messages
  import opened Payloads
  import opened Ledger
  import opened Coalescing

  function KeyOf(env: Env, b: Bucket, data: Bytes): Key {
    Key(b, env.sha256(data))
  }

  datatype NativeWrite = NativeWrite(bucket: Bucket, data: Bytes)

  /** The native format and the exact bytes a payload is written as. */
  function NormalizeWritePayload(env: Env, p: ClipboardPayload): Result<NativeWrite> {
    if p.kind == KIND_TEXT || p.kind == KIND_URL then Ok(NativeWrite(TextBucket, p.data))
    else if p.kind == KIND_IMAGE then
      if p.mimeType == IMAGE_PNG then Ok(NativeWrite(ImageBucket, p.data))
      else if p.mimeType == IMAGE_JPEG then
        match env.jpegToPng(p.data)
        case None => Err(ImageDecodeFailed)
        case Some(png) => Ok(NativeWrite(ImageBucket, png))
      else Err(InvalidImageMIME)
    else Err(InvalidPayloadType)
  }

  datatype ApplyResult = Applied | Cancelled | Refused(error: Error) | WriteFailed

  /** What is to be written for a payload, or why it is refused. */
  function Admit(env: Env, payload: Option<ClipboardPayload>): Result<NativeWrite> {
    match ValidatePayload(env, payload)
    case Some(e) => Err(e)
    case None => NormalizeWritePayload(env, payload.value)
  }

  /** The ledger after `ApplyRemote` ran by itself, and its answer. */
  function ApplyOutcome(
      env: Env, entries: Entries, ttl: int, cancelled: bool, payload: Option<ClipboardPayload>, now: int, writeOk: bool)
      : (Entries, ApplyResult)
  {
    if cancelled then (entries, Cancelled)
    else
      match Admit(env, payload)
      case Err(e) => (entries, Refused(e))
      case Ok(w) =>
        var remembered := Remembered(entries, KeyOf(env, w.bucket, w.data), now, ttl);
        if writeOk then (remembered, Applied)
        else (Forgotten(remembered, KeyOf(env, w.bucket, w.data)), WriteFailed)
  }

  class ClipboardManager {
    const pending: PendingLedger
    var written: seq<NativeWrite>

    constructor (ttl: int)
      ensures fresh(pending) && pending.ttl == ttl && pending.entries == map[] && written == []
    {
      pending := new PendingLedger(ttl);
      written := [];
    }

    /** `writeOk` is whether the native clipboard takes the write. */
    method ApplyRemote(env: Env, cancelled: bool, payload: Option<ClipboardPayload>, now: int, writeOk: bool)
      returns (r: ApplyResult)
      modifies this, pending
      ensures (pending.entries, r)
           == ApplyOutcome(env, old(pending.entries), pending.ttl, cancelled, payload, now, writeOk)
      ensures written == old(written) + if r == Applied then [Admit(env, payload).value] else []
    {
      if cancelled {
        return Cancelled;
      }
      var refusal := ValidatePayload(env, payload);
      if refusal.Some? {
        return Refused(refusal.value);
      }
      var w := NormalizeWritePayload(env, payload.value);
      if w.Err? {
        return Refused(w.error);
      }
      var key := KeyOf(env, w.value.bucket, w.value.data);
      pending.Remember(key, now);
      if !writeOk {
        pending.Forget(key);
        return WriteFailed;
      }
      written := written + [w.value];
      return Applied;
    }

    /** One turn of the watch loop: the change to pass on, unless there is none or it is an echo. */
    method Watch(env: Env, bucket: Bucket, data: Option<Bytes>, now: int) returns (evt: Option<Event>)
      modifies pending
      ensures data == None ==> evt == None && pending.entries == old(pending.entries)
      ensures data.Some? ==>
                var (entries, hit) := Consumed(old(pending.entries), KeyOf(env, bucket, data.value), now);
                pending.entries == entries && evt == if hit then None else Some(Event(bucket, data.value))
    {
      if data == None {
        return None;
      }
      var hit := pending.Consume(KeyOf(env, bucket, data.value), now);
      return if hit then None else Some(Event(bucket, data.value));
    }
  }

  /** A payload is refused before it can touch the ledger exactly when it is missing, invalid, or
      a JPEG that does not decode. */
  lemma {:induction false} AdmitsExactly(env: Env, p: ClipboardPayload)
    ensures Admit(env, Some(p)).Ok?
       <==> IsValid(env, p) && (p.mimeType == IMAGE_JPEG ==> env.jpegToPng(p.data).Some?)
    ensures Admit(env, None) == Err(NilPayload)
  {
    ValidateDecidesValidity(env, p);
  }

  /** What is written for each kind of valid payload: the text's own bytes, a PNG's own bytes, and for a
      JPEG the PNG made of it. */
  lemma {:induction false} WritesExactly(env: Env, p: ClipboardPayload)
    requires IsValid(env, p)
    ensures p.kind in {KIND_TEXT, KIND_URL} ==> Admit(env, Some(p)) == Ok(NativeWrite(TextBucket, p.data))
    ensures p.mimeType == IMAGE_PNG ==> Admit(env, Some(p)) == Ok(NativeWrite(ImageBucket, p.data))
    ensures p.mimeType == IMAGE_JPEG ==>
              Admit(env, Some(p)) == match env.jpegToPng(p.data)
                                     case None => Err(ImageDecodeFailed)
                                     case Some(png) => Ok(NativeWrite(ImageBucket, png))
  {
    ValidateDecidesValidity(env, p);
    MimesDiffer();
  }

  lemma {:induction false} MimesDiffer()
    ensures IMAGE_PNG != IMAGE_JPEG && IMAGE_PNG != [] && IMAGE_JPEG != []
  {
    assert IMAGE_PNG[6] != IMAGE_JPEG[6];
  }

  /** A change observed at one node and applied at another puts the same bytes under the same format into
      its clipboard, so both nodes know it by the same key. */
  lemma {:induction false} ChangeCrossesNodes(env: Env, w: Window, e: Event)
    requires Build(env, w, e).Ok?
    ensures Admit(env, Some(Build(env, w, e).value)) == Ok(NativeWrite(e.bucket, e.data))
  {
    BuildDescribes(env, w, e);
    WritesExactly(env, Build(env, w, e).value);
  }

  /** Every way `ApplyRemote` can end: nothing is remembered when the node is shutting down or the payload
      is refused, a failed write ends with nothing more remembered, and only an applied one is kept. */
  lemma {:induction false} ApplyEndsExactly(
      env: Env, entries: Entries, ttl: int, cancelled: bool, payload: Option<ClipboardPayload>, now: int, writeOk: bool)
    requires CountsPositive(entries)
    ensures var (after, r) := ApplyOutcome(env, entries, ttl, cancelled, payload, now, writeOk);
      && (r == Cancelled <==> cancelled)
      && (r.Refused? <==> !cancelled && Admit(env, payload).Err?)
      && (r.Refused? ==> r.error == Admit(env, payload).error)
      && (cancelled || r.Refused? ==> after == entries)
      && (r == Applied <==> !cancelled && Admit(env, payload).Ok? && writeOk)
      && (r == WriteFailed ==> forall key :: CountOf(after, key) == CountOf(Pruned(entries, now), key))
      && (r == Applied ==>
            var w := Admit(env, payload).value; var own := KeyOf(env, w.bucket, w.data);
            && own in after && after[own].expiresAt == now + ttl
            && forall key :: CountOf(after, key) == CountOf(Pruned(entries, now), key) + (if key == own then 1 else 0))
  {
    if !cancelled && Admit(env, payload).Ok? {
      var w := Admit(env, payload).value;
      RememberThenForget(entries, KeyOf(env, w.bucket, w.data), now, ttl);
    }
  }

  /** An applied write suppresses exactly one report of the same bytes within the ledger's time,
      whatever the ledger held before; a failed one leaves the number to suppress as it was. */
  lemma {:induction false} AppliedWriteIsIgnoredOnce(
      env: Env, entries: Entries, ttl: int, p: ClipboardPayload, now: int, writeOk: bool, later: int)
    requires CountsPositive(entries) && Admit(env, Some(p)).Ok? && now <= later < now + ttl
    ensures var w := Admit(env, Some(p)).value;
      var key := KeyOf(env, w.bucket, w.data);
      var after := ApplyOutcome(env, entries, ttl, false, Some(p), now, writeOk).0;
      LiveCount(after, key, later) == LiveCount(entries, key, now) + if writeOk then 1 else 0
  {
    RememberThenForget(entries, KeyOf(env, Admit(env, Some(p)).value.bucket, Admit(env, Some(p)).value.data), now, ttl);
  }
}
