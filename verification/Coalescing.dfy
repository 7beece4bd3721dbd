/** Turning observed clipboard changes into payloads: within a coalescing window only the latest
    change of each native format is kept, and text is emitted before image. */
module Coalescing {
  import opened Wire
  import opened Messages
  import opened Payloads
  import opened Ledger

  datatype Event = Event(bucket: Bucket, data: Bytes)

  /** The changes collected until the window's timer fires, and the clock readings of the two emissions. */
  datatype Window = Window(events: seq<Event>, textMs: int64, imageMs: int64)

  function TextKind(env: Env, data: Bytes): int32 {
    if env.isWebUrl(data) then KIND_URL else KIND_TEXT
  }

  /** The payload made of an observed change. */
  function Build(env: Env, w: Window, e: Event): Result<ClipboardPayload> {
    match e.bucket
    case TextBucket => NewPayload(env, w.textMs, TextKind(env, e.data), e.data, [])
    case ImageBucket => NewPayload(env, w.imageMs, KIND_IMAGE, e.data, IMAGE_PNG)
  }

  /** An emitted payload and which observed change it came from. */
  datatype Emission = Emission(index: nat, payload: ClipboardPayload)

  /** The last event of a bucket. */
  function LastIndex(events: seq<Event>, b: Bucket): (i: Option<nat>)
    ensures i.Some? ==> i.value < |events|
  {
    if events == [] then None
    else if events[|events| - 1].bucket == b then Some(|events| - 1)
    else LastIndex(events[..|events| - 1], b)
  }

  function BucketEmissions(env: Env, base: nat, w: Window, b: Bucket): seq<Emission> {
    match LastIndex(w.events, b)
    case None => []
    case Some(i) =>
      match Build(env, w, w.events[i])
      case Err(_) => []
      case Ok(p) => [Emission(base + i, p)]
  }

  /** What one window emits; `base` changes were observed before it. */
  function WindowEmissions(env: Env, base: nat, w: Window): seq<Emission> {
    BucketEmissions(env, base, w, TextBucket) + BucketEmissions(env, base, w, ImageBucket)
  }

  // ---- Whole runs ----

  type Windows = seq<Window>

  function Observed(ws: Windows): seq<Event> {
    if ws == [] then [] else Observed(ws[..|ws| - 1]) + ws[|ws| - 1].events
  }

  function Emissions(env: Env, ws: Windows): seq<Emission> {
    if ws == [] then []
    else
      var front := ws[..|ws| - 1];
      Emissions(env, front) + WindowEmissions(env, |Observed(front)|, ws[|ws| - 1])
  }

  /** One window of `processObserved`: collect into a batch keyed by format, then emit. */
  method ProcessWindow(env: Env, base: nat, w: Window) returns (out: seq<Emission>)
    ensures out == WindowEmissions(env, base, w)
  {
    var batch: map<Bucket, nat> := map[];
    for n := 0 to |w.events|
      invariant forall b :: b in batch <==> LastIndex(w.events[..n], b).Some?
      invariant forall b :: b in batch ==> LastIndex(w.events[..n], b) == Some(batch[b])
    {
      assert w.events[..n + 1][..n] == w.events[..n];
      batch := batch[w.events[n].bucket := n];
    }
    assert w.events[..|w.events|] == w.events;
    out := [];
    if TextBucket in batch {
      var payload := Build(env, w, w.events[batch[TextBucket]]);
      if payload.Ok? {
        out := out + [Emission(base + batch[TextBucket], payload.value)];
      }
    }
    if ImageBucket in batch {
      var payload := Build(env, w, w.events[batch[ImageBucket]]);
      if payload.Ok? {
        out := out + [Emission(base + batch[ImageBucket], payload.value)];
      }
    }
  }

  method ProcessObserved(env: Env, ws: Windows) returns (out: seq<Emission>)
    ensures out == Emissions(env, ws)
  {
    out := [];
    var base := 0;
    for n := 0 to |ws|
      invariant out == Emissions(env, ws[..n])
      invariant base == |Observed(ws[..n])|
    {
      assert ws[..n + 1][..n] == ws[..n];
      var emitted := ProcessWindow(env, base, ws[n]);
      out := out + emitted;
      base := base + |ws[n].events|;
    }
    assert ws[..|ws|] == ws;
  }

  // ---- The last of its bucket ----

  lemma {:induction false} LastIndexIsLast(events: seq<Event>, b: Bucket, i: nat)
    requires i < |events|
    ensures LastIndex(events, b) == Some(i)
       <==> events[i].bucket == b && forall j :: i < j < |events| ==> events[j].bucket != b
    decreases |events|
  {
    var n := |events| - 1;
    var front := events[..n];
    if i < n {
      LastIndexIsLast(front, b, i);
      assert events[n].bucket != b && LastIndex(front, b) == Some(i) ==> forall j :: i < j < |events| ==> events[j].bucket != b;
    }
  }

  /** Change i was overtaken by a later change of its format in its own window. */
  predicate Superseded(events: seq<Event>, i: nat)
    requires i < |events|
  {
    exists j :: i < j < |events| && events[j].bucket == events[i].bucket
  }

  /** `NewPayload` takes the change. */
  predicate Accepted(env: Env, e: Event) {
    match e.bucket
    case TextBucket => Acceptable(env, TextKind(env, e.data), e.data, [])
    case ImageBucket => Acceptable(env, KIND_IMAGE, e.data, IMAGE_PNG)
  }

  /** The payload says what the change was: its bytes, a URL exactly where the text is one, a PNG for an
      image, and the clock reading of its own format's emission. */
  predicate Describes(env: Env, w: Window, p: ClipboardPayload, e: Event) {
    && IsValid(env, p) && p.data == e.data
    && match e.bucket
       case TextBucket => p.mimeType == [] && p.timestamp == w.textMs && (p.kind == KIND_URL <==> env.isWebUrl(e.data))
       case ImageBucket => p.kind == KIND_IMAGE && p.mimeType == IMAGE_PNG && p.timestamp == w.imageMs
  }

  lemma {:induction false} BuildDescribes(env: Env, w: Window, e: Event)
    ensures Build(env, w, e).Ok? <==> Accepted(env, e)
    ensures Build(env, w, e).Ok? ==> Describes(env, w, Build(env, w, e).value, e)
  {
    NewPayloadMakesValidPayloads(env, w.textMs, TextKind(env, e.data), e.data, []);
    NewPayloadMakesValidPayloads(env, w.imageMs, KIND_IMAGE, e.data, IMAGE_PNG);
  }

  predicate EmittedAt(out: seq<Emission>, n: nat) {
    exists e :: e in out && e.index == n
  }

  lemma {:induction false} BucketEmits(env: Env, base: nat, w: Window, b: Bucket)
    ensures var out := BucketEmissions(env, base, w, b);
      && |out| <= 1
      && (forall e :: e in out ==> base <= e.index < base + |w.events|)
      && (forall e :: e in out ==> w.events[e.index - base].bucket == b)
      && (forall e :: e in out ==> Describes(env, w, e.payload, w.events[e.index - base]))
    ensures forall i :: 0 <= i < |w.events| && w.events[i].bucket == b ==>
              (EmittedAt(BucketEmissions(env, base, w, b), base + i)
               <==> !Superseded(w.events, i) && Accepted(env, w.events[i]))
  {
    var out := BucketEmissions(env, base, w, b);
    var last := LastIndex(w.events, b);
    if last.Some? {
      LastIndexIsLast(w.events, b, last.value);
      BuildDescribes(env, w, w.events[last.value]);
    }
    forall i | 0 <= i < |w.events| && w.events[i].bucket == b
      ensures EmittedAt(out, base + i) <==> !Superseded(w.events, i) && Accepted(env, w.events[i])
    {
      LastIndexIsLast(w.events, b, i);
      if last == Some(i) && Accepted(env, w.events[i]) {
        assert out[0] in out && out[0].index == base + i;
      }
    }
  }

  lemma {:induction false} EmittedAtEither(a: seq<Emission>, b: seq<Emission>, n: nat)
    ensures EmittedAt(a + b, n) <==> EmittedAt(a, n) || EmittedAt(b, n)
  {
    if EmittedAt(a, n) {
      var e :| e in a && e.index == n;
      assert e in a + b;
    }
    if EmittedAt(b, n) {
      var e :| e in b && e.index == n;
      assert e in a + b;
    }
  }

  /** Emissions of one window: they describe its changes, and text comes before image. */
  ghost predicate WindowInOrder(env: Env, base: nat, w: Window, out: seq<Emission>) {
    && (forall e :: e in out ==> base <= e.index < base + |w.events|)
    && (forall e :: e in out ==> Describes(env, w, e.payload, w.events[e.index - base]))
    && (forall x, y :: 0 <= x < y < |out| ==>
          w.events[out[x].index - base].bucket == TextBucket && w.events[out[y].index - base].bucket == ImageBucket)
  }

  /** Within one window: emissions describe their change; text comes before image. */
  lemma {:induction false} WindowEmitsInOrder(env: Env, base: nat, w: Window)
    ensures WindowInOrder(env, base, w, WindowEmissions(env, base, w))
  {
    BucketEmits(env, base, w, TextBucket);
    BucketEmits(env, base, w, ImageBucket);
  }

  lemma {:induction false} OtherBucketIsSilent(env: Env, base: nat, w: Window, b: Bucket, i: nat)
    requires i < |w.events| && w.events[i].bucket != b
    ensures !EmittedAt(BucketEmissions(env, base, w, b), base + i)
  {
    BucketEmits(env, base, w, b);
  }

  /** Within one window: a change is emitted exactly when it is the last of its format and a legal payload. */
  lemma {:induction false} WindowEmitsExactly(env: Env, base: nat, w: Window, i: nat)
    requires i < |w.events|
    ensures EmittedAt(WindowEmissions(env, base, w), base + i)
       <==> !Superseded(w.events, i) && Accepted(env, w.events[i])
  {
    var texts, images := BucketEmissions(env, base, w, TextBucket), BucketEmissions(env, base, w, ImageBucket);
    var b := w.events[i].bucket;
    BucketEmits(env, base, w, b);
    OtherBucketIsSilent(env, base, w, if b == TextBucket then ImageBucket else TextBucket, i);
    EmittedAtEither(texts, images, base + i);
  }

  // ---- Whole runs ----

  function WindowOf(ws: Windows, i: nat): (n: nat)
    requires i < |Observed(ws)|
    ensures n < |ws|
  {
    var front := ws[..|ws| - 1];
    if i < |Observed(front)| then WindowOf(front, i) else |ws| - 1
  }

  /** Change i was overtaken by a later change of its format in its own window. */
  predicate Overtaken(ws: Windows, i: nat)
    requires i < |Observed(ws)|
  {
    exists j :: i < j < |Observed(ws)|
      && WindowOf(ws, j) == WindowOf(ws, i) && Observed(ws)[j].bucket == Observed(ws)[i].bucket
  }

  lemma {:induction false} OvertakenLocally(ws: Windows, i: nat)
    requires ws != [] && i < |Observed(ws)|
    ensures var front := ws[..|ws| - 1];
      Overtaken(ws, i) <==> if i < |Observed(front)| then Overtaken(front, i)
                            else Superseded(ws[|ws| - 1].events, i - |Observed(front)|)
  {
    var front, w := ws[..|ws| - 1], ws[|ws| - 1];
    var base := |Observed(front)|;
    if i >= base && Superseded(w.events, i - base) {
      var j :| i - base < j < |w.events| && w.events[j].bucket == w.events[i - base].bucket;
      assert Observed(ws)[base + j].bucket == Observed(ws)[i].bucket;
    }
    if i < base && Overtaken(front, i) {
      var j :| i < j < base && WindowOf(front, j) == WindowOf(front, i) && Observed(front)[j].bucket == Observed(front)[i].bucket;
      assert WindowOf(ws, j) == WindowOf(ws, i) && Observed(ws)[j].bucket == Observed(ws)[i].bucket;
    }
  }

  /** Emitted payloads describe observed changes. */
  ghost predicate AllDescribe(env: Env, ws: Windows, out: seq<Emission>) {
    forall e :: e in out ==>
      e.index < |Observed(ws)| && Describes(env, ws[WindowOf(ws, e.index)], e.payload, Observed(ws)[e.index])
  }

  /** Change a may be emitted before change b. */
  predicate Before(ws: Windows, a: nat, b: nat)
    requires a < |Observed(ws)| && b < |Observed(ws)|
  {
    && WindowOf(ws, a) <= WindowOf(ws, b)
    && (WindowOf(ws, a) == WindowOf(ws, b) ==>
          Observed(ws)[a].bucket == TextBucket && Observed(ws)[b].bucket == ImageBucket)
  }

  /** Windows go out in order, and within one window text before image. */
  predicate InWindowOrder(ws: Windows, out: seq<Emission>)
    requires forall e :: e in out ==> e.index < |Observed(ws)|
  {
    forall x, y :: 0 <= x < y < |out| ==> Before(ws, out[x].index, out[y].index)
  }

  lemma {:induction false} WindowsInOrder(ws: Windows, i: nat, j: nat)
    requires i < |Observed(ws)| && j < |Observed(ws)| && WindowOf(ws, i) < WindowOf(ws, j)
    ensures i < j
  {
    var front := ws[..|ws| - 1];
    if j < |Observed(front)| {
      if i < |Observed(front)| { WindowsInOrder(front, i, j); }
    }
  }

  lemma {:induction false} BeforeInFront(ws: Windows, a: nat, b: nat)
    requires ws != []
    ensures var front := ws[..|ws| - 1];
      a < |Observed(front)| && b < |Observed(front)| && Before(front, a, b) ==> Before(ws, a, b)
    ensures var front := ws[..|ws| - 1];
      a < |Observed(front)| <= b < |Observed(ws)| ==> Before(ws, a, b)
  {
    var front := ws[..|ws| - 1];
    assert a < |Observed(front)| ==> WindowOf(ws, a) == WindowOf(front, a);
  }

  lemma {:induction false} BeforeInLast(ws: Windows, a: nat, b: nat)
    requires ws != []
    requires var base := |Observed(ws[..|ws| - 1])|;
      && base <= a < |Observed(ws)| && base <= b < |Observed(ws)|
      && ws[|ws| - 1].events[a - base].bucket == TextBucket
      && ws[|ws| - 1].events[b - base].bucket == ImageBucket
    ensures Before(ws, a, b)
  {
  }

  /** One more window after a run whose emissions are in order. */
  lemma {:induction false} AppendWindow(env: Env, ws: Windows, early: seq<Emission>, late: seq<Emission>)
    requires ws != []
    requires var front := ws[..|ws| - 1];
      && AllDescribe(env, front, early) && InWindowOrder(front, early)
      && WindowInOrder(env, |Observed(front)|, ws[|ws| - 1], late)
    ensures AllDescribe(env, ws, early + late) && InWindowOrder(ws, early + late)
  {
    var all := early + late;
    forall e | e in all
      ensures e.index < |Observed(ws)| && Describes(env, ws[WindowOf(ws, e.index)], e.payload, Observed(ws)[e.index])
    {
      assert e in early || e in late;
    }
    forall x, y | 0 <= x < y < |all|
      ensures Before(ws, all[x].index, all[y].index)
    {
      assert if x < |early| then all[x] in early else all[x] in late;
      assert if y < |early| then all[y] in early else all[y] in late;
      if x < |early| { BeforeInFront(ws, all[x].index, all[y].index); }
      else { BeforeInLast(ws, all[x].index, all[y].index); }
    }
  }

  /** On every run: emissions describe observed changes, in window order with text first. */
  lemma {:induction false} RunEmitsInOrder(env: Env, ws: Windows)
    ensures AllDescribe(env, ws, Emissions(env, ws)) && InWindowOrder(ws, Emissions(env, ws))
  {
    if ws != [] {
      var front, w := ws[..|ws| - 1], ws[|ws| - 1];
      RunEmitsInOrder(env, front);
      WindowEmitsInOrder(env, |Observed(front)|, w);
      AppendWindow(env, ws, Emissions(env, front), WindowEmissions(env, |Observed(front)|, w));
    }
  }

  /** The emissions of one format are a subsequence of the observed changes of that format. */
  lemma {:induction false} FormatIsSubsequence(env: Env, ws: Windows, x: nat, y: nat)
    requires x < y < |Emissions(env, ws)|
    ensures var a, b := Emissions(env, ws)[x].index, Emissions(env, ws)[y].index;
      && a < |Observed(ws)| && b < |Observed(ws)|
      && (Observed(ws)[a].bucket == Observed(ws)[b].bucket ==> a < b)
  {
    RunEmitsInOrder(env, ws);
    assert Emissions(env, ws)[x] in Emissions(env, ws) && Emissions(env, ws)[y] in Emissions(env, ws);
    var a, b := Emissions(env, ws)[x].index, Emissions(env, ws)[y].index;
    assert Before(ws, a, b);
    if Observed(ws)[a].bucket == Observed(ws)[b].bucket {
      WindowsInOrder(ws, a, b);
    }
  }

  /** Every observed change is emitted, overtaken in its window, or refused by `NewPayload`, and
      emitted only if neither of the others. */
  lemma {:induction false} NothingElseIsLost(env: Env, ws: Windows, i: nat)
    requires i < |Observed(ws)|
    ensures EmittedAt(Emissions(env, ws), i) <==> !Overtaken(ws, i) && Accepted(env, Observed(ws)[i])
  {
    var front, w := ws[..|ws| - 1], ws[|ws| - 1];
    var base := |Observed(front)|;
    RunEmitsInOrder(env, front);
    WindowEmitsInOrder(env, base, w);
    OvertakenLocally(ws, i);
    EmittedAtEither(Emissions(env, front), WindowEmissions(env, base, w), i);
    if i < base {
      NothingElseIsLost(env, front, i);
    } else {
      WindowEmitsExactly(env, base, w, i - base);
    }
  }
}
