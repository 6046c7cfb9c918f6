// Bounded image validation: permits for running decodes, slots for waiting
// callers, and a geometry test that cannot overflow.
module ImageValidation {
  import opened Wrappers

  // --- Geometry ------------------------------------------------------------

  const HARD_MAX_WIDTH: int := 4_000
  const HARD_MAX_HEIGHT: int := 4_000
  const HARD_MAX_PIXELS: int := 16_000_000
  const HARD_MAX_ASPECT_RATIO: int := 20
  const HARD_MAX_DECODES: int := 1
  const HARD_MAX_WAIT: int := 1_000_000_000

  datatype Limits = Limits(
    maxWidth: int, maxHeight: int, maxPixels: int, maxAspectRatio: int, maxConcurrentDecodes: int, admissionWait: int)
  {
    // ImageDecodeLimits.Validate.
    predicate Valid() {
      && 0 < maxWidth <= HARD_MAX_WIDTH && 0 < maxHeight <= HARD_MAX_HEIGHT
      && 0 < maxPixels <= HARD_MAX_PIXELS && 0 < maxAspectRatio <= HARD_MAX_ASPECT_RATIO
      && 0 < maxConcurrentDecodes <= HARD_MAX_DECODES && 0 < admissionWait <= HARD_MAX_WAIT
    }
  }

  const TWO_63: int := 0x8000_0000_0000_0000
  const TWO_64: int := 0x1_0000_0000_0000_0000

  // 64-bit arithmetic of the decoder's platform.
  function Int64(x: int): int {
    if x % TWO_64 < TWO_63 then x % TWO_64 else x % TWO_64 - TWO_64
  }

  function Uint64(x: int): int {
    x % TWO_64
  }

  function AspectAllowed(longSide: int, shortSide: int, limits: Limits): bool {
    longSide <= Int64(shortSide * limits.maxAspectRatio)
  }

  // imageGeometryAllowed, on 64-bit integers.
  function GeometryAllowed(width: int, height: int, limits: Limits): bool
    requires -TWO_63 <= width < TWO_63 && -TWO_63 <= height < TWO_63
  {
    if width <= 0 || height <= 0 || width > limits.maxWidth || height > limits.maxHeight then false
    else if Uint64(width) > limits.maxPixels / Uint64(height) then false
    else
      LongByShort(width, height, limits)
  }

  lemma QuotientBoundsProduct(width: int, height: int, pixels: int)
    requires height > 0
    ensures width <= pixels / height <==> width * height <= pixels
  {
    var q := pixels / height;
    assert q * height <= pixels < (q + 1) * height;
    if width <= q {
      assert width * height <= q * height;
    } else {
      assert (q + 1) * height <= width * height;
    }
  }

  // Success means exactly the bounds on unbounded integers: nothing wraps.
  lemma GeometryIsExact(width: int, height: int, limits: Limits)
    requires -TWO_63 <= width < TWO_63 && -TWO_63 <= height < TWO_63 && limits.Valid()
    ensures GeometryAllowed(width, height, limits)
            <==> WithinBounds(width, height, limits)
  {
    if 0 < width <= limits.maxWidth && 0 < height <= limits.maxHeight {
      GeometryInRange(width, height, limits);
      QuotientBoundsProduct(width, height, limits.maxPixels);
      AspectBothWays(width, height, limits);
    }
  }

  function LongByShort(width: int, height: int, limits: Limits): bool {
    if height > width then AspectAllowed(height, width, limits) else AspectAllowed(width, height, limits)
  }

  lemma GeometryInRange(width: int, height: int, limits: Limits)
    requires 0 < width <= limits.maxWidth && 0 < height <= limits.maxHeight && limits.Valid()
    ensures GeometryAllowed(width, height, limits)
            <==> width <= limits.maxPixels / height && LongByShort(width, height, limits)
  {
    assert Uint64(width) == width && Uint64(height) == height;
  }

  lemma AspectBothWays(width: int, height: int, limits: Limits)
    requires 0 < width <= limits.maxWidth && 0 < height <= limits.maxHeight && limits.Valid()
    ensures LongByShort(width, height, limits)
            <==> width <= height * limits.maxAspectRatio && height <= width * limits.maxAspectRatio
  {
    AspectDoesNotWrap(width, limits.maxAspectRatio);
    AspectDoesNotWrap(height, limits.maxAspectRatio);
  }

  lemma AspectDoesNotWrap(side: int, ratio: int)
    requires 0 < side <= 4_000 && 0 < ratio <= HARD_MAX_ASPECT_RATIO
    ensures side <= side * ratio < TWO_63 && Int64(side * ratio) == side * ratio
  {
    assert side <= side * ratio;
    assert side * ratio <= 4_000 * ratio;
  }

  // --- Admission -----------------------------------------------------------

  type CallId = nat

  // A validation that is queued, has its permit but not yet left the queue, decodes,
  // has given up but not yet left the queue, or is over.
  datatype Phase = Waiting | Admitted | Decoding | Leaving | Gone
  {
    predicate HasPermit() {
      Admitted? || Decoding?
    }

    predicate HasPlace() {
      Waiting? || Admitted? || Leaving?
    }
  }

  // The tokens in the two channels, and where every validation is.
  datatype Admission = Admission(capacity: nat, permits: nat, waiters: nat, calls: map<CallId, Phase>)

  datatype Step =
    | Enter(id: CallId)        // a permit at once, a place in the queue, or neither
    | Grant(id: CallId)        // a queued call puts its token among the permits
    | GiveUp(id: CallId)       // its context ended, or its time ran out
    | LeaveQueue(id: CallId)
    | Release(id: CallId)

  predicate Enabled(a: Admission, step: Step) {
    match step
    case Enter(id) => id !in a.calls
    case Grant(id) => id in a.calls && a.calls[id].Waiting? && a.permits < a.capacity
    case GiveUp(id) => id in a.calls && a.calls[id].Waiting?
    case LeaveQueue(id) => id in a.calls && (a.calls[id].Admitted? || a.calls[id].Leaving?)
    case Release(id) => id in a.calls && a.calls[id].Decoding?
  }

  function WithPermit(a: Admission): set<CallId> {
    set id | id in a.calls && a.calls[id].HasPermit()
  }

  function InQueue(a: Admission): set<CallId> {
    set id | id in a.calls && a.calls[id].HasPlace()
  }

  function InDecoder(a: Admission): set<CallId> {
    set id | id in a.calls && a.calls[id].Decoding?
  }

  // Every token belongs to one call, and neither channel is over its capacity.
  predicate Balanced(a: Admission) {
    a.permits == |WithPermit(a)| <= a.capacity && a.waiters == |InQueue(a)| <= a.capacity
  }

  // A token taken out is there to take.
  lemma TokensAreThere(a: Admission, id: CallId)
    requires Balanced(a) && id in a.calls
    ensures a.calls[id].HasPermit() ==> a.permits > 0
    ensures a.calls[id].HasPlace() ==> a.waiters > 0
  {
    assert a.calls[id].HasPermit() ==> id in WithPermit(a);
    assert a.calls[id].HasPlace() ==> id in InQueue(a);
  }

  function Apply(a: Admission, step: Step): Admission
    requires Balanced(a) && Enabled(a, step)
  {
    match step
    case Enter(id) =>
      if a.permits < a.capacity then a.(permits := a.permits + 1, calls := a.calls[id := Decoding])
      else if a.waiters < a.capacity then a.(waiters := a.waiters + 1, calls := a.calls[id := Waiting])
      else a.(calls := a.calls[id := Gone])
    case Grant(id) => a.(permits := a.permits + 1, calls := a.calls[id := Admitted])
    case GiveUp(id) => a.(calls := a.calls[id := Leaving])
    case LeaveQueue(id) =>
      TokensAreThere(a, id);
      a.(waiters := a.waiters - 1, calls := a.calls[id := if a.calls[id].Admitted? then Decoding else Gone])
    case Release(id) =>
      TokensAreThere(a, id);
      a.(permits := a.permits - 1, calls := a.calls[id := Gone])
  }

  lemma StepKeepsBalance(a: Admission, step: Step)
    requires Balanced(a) && Enabled(a, step)
    ensures Balanced(Apply(a, step))
  {
    var after, id := Apply(a, step), step.id;
    assert WithPermit(after) - {id} == WithPermit(a) - {id} && InQueue(after) - {id} == InQueue(a) - {id};
    TokenOf(WithPermit(a), WithPermit(after), id);
    TokenOf(InQueue(a), InQueue(after), id);
  }

  lemma TokenOf(before: set<CallId>, after: set<CallId>, id: CallId)
    requires before - {id} == after - {id}
    ensures |after| == |before| + (if id in after then 1 else 0) - if id in before then 1 else 0
  {
    assert id in before ==> before == (before - {id}) + {id};
    assert id !in before ==> before == before - {id};
    assert id in after ==> after == (after - {id}) + {id};
    assert id !in after ==> after == after - {id};
  }

  ghost predicate Runs(a: Admission, steps: seq<Step>, end: Admission)
    decreases |steps|
  {
    if steps == [] then end == a
    else Balanced(a) && Enabled(a, steps[0]) && Runs(Apply(a, steps[0]), steps[1..], end)
  }

  // In every interleaving of any number of validations: never more decodes, nor more
  // queued calls, than the capacity; when all are over, both channels are empty.
  lemma {:induction false} AdmissionIsBounded(a: Admission, steps: seq<Step>, end: Admission)
    requires Balanced(a) && Runs(a, steps, end)
    ensures Balanced(end) && end.capacity == a.capacity
    ensures |InDecoder(end)| <= a.capacity
    ensures (forall id :: id in end.calls ==> end.calls[id].Gone?) ==> end.permits == 0 && end.waiters == 0
    decreases |steps|
  {
    if steps != [] {
      StepKeepsBalance(a, steps[0]);
      AdmissionIsBounded(Apply(a, steps[0]), steps[1..], end);
    } else {
      assert WithPermit(end) == InDecoder(end) + (WithPermit(end) - InDecoder(end));
      if forall id :: id in end.calls ==> end.calls[id].Gone? {
        assert WithPermit(end) == {} && InQueue(end) == {};
      }
    }
  }

  // --- One validation ------------------------------------------------------

  datatype Config = Config(width: int, height: int, format: string)

  // What a decoder call does with the payload.
  datatype Decoding = Decoded(config: Config) | DecodeError | Panics

  datatype Validated = Validated(format: string, width: int, height: int)

  datatype Verdict = Valid(image: Validated) | Invalid | Saturated | Cancelled

  function CanonicalMime(format: string): string {
    if format == "jpeg" then "image/jpeg" else if format == "png" then "image/png"
    else if format == "webp" then "image/webp" else ""
  }

  predicate Bounds64(d: Decoding) {
    d.Decoded? ==> -TWO_63 <= d.config.width < TWO_63 && -TWO_63 <= d.config.height < TWO_63
  }

  // How a caller's two waits end: a permit came free, the context ended, or time ran out.
  datatype Wait = PermitCame | ContextEnded | TimedOut

  // What a validation is told: a free permit is taken at once; with the queue full as
  // well it is turned away; else the wait decides, and a permit comes only if one is
  // free by then.
  function Answer(entry: Admission, turned: Admission, wait: Wait): Option<Verdict> {
    if entry.permits < entry.capacity then None
    else if entry.waiters >= entry.capacity then Some(Saturated)
    else
      match wait
      case ContextEnded => Some(Cancelled)
      case TimedOut => Some(Saturated)
      case PermitCame => if turned.permits < turned.capacity then None else Some(Saturated)
  }

  class Validator {
    const limits: Limits
    const me: CallId                  // this validation
    const others: nat -> seq<Step>    // what the others try to do at each of its pauses
    var turn: nat
    var permits: nat                  // tokens in the channels
    var waiters: nat
    var calls: map<CallId, Phase>

    function State(): Admission
      requires limits.Valid()
      reads this
    {
      Admission(limits.maxConcurrentDecodes, permits, waiters, calls)
    }

    predicate Valid()
      reads this
    {
      limits.Valid() && Balanced(State())
    }

    predicate MineIs(phase: Phase)
      reads this
    {
      me in calls && calls[me] == phase
    }

    constructor (limits: Limits, me: CallId, others: nat -> seq<Step>)
      requires limits.Valid()
      ensures Valid() && me !in calls && this.limits == limits && this.me == me
    {
      this.limits, this.me, this.others := limits, me, others;
      turn, permits, waiters, calls := 0, 0, 0, map[];
      new;
      assert WithPermit(State()) == {} && InQueue(State()) == {};
    }

    // Any other validations take any steps that are open to them.
    method Yield()
      requires Valid()
      modifies this
      ensures Valid() && (me in calls <==> me in old(calls)) && (me in calls ==> calls[me] == old(calls)[me])
    {
      var steps := others(turn);
      for i := 0 to |steps|
        invariant Valid() && (me in calls <==> me in old(calls)) && (me in calls ==> calls[me] == old(calls)[me])
      {
        if steps[i].id != me && Enabled(State(), steps[i]) {
          Take(steps[i]);
        }
      }
      turn := turn + 1;
    }

    method Take(step: Step)
      requires Valid() && Enabled(State(), step)
      modifies this`permits, this`waiters, this`calls
      ensures Valid() && State() == Apply(old(State()), step)
    {
      StepKeepsBalance(State(), step);
      var after := Apply(State(), step);
      permits, waiters, calls := after.permits, after.waiters, after.calls;
    }

    // A state that these channels can be in.
    predicate IsOurs(a: Admission) {
      a.capacity == limits.maxConcurrentDecodes && Balanced(a)
    }

    // acquire: a permit at once, or a place in the queue and then a permit, or
    // neither. The queue place is given back on every path.
    method Acquire(wait: Wait) returns (verdict: Option<Verdict>, ghost entry: Admission, ghost turned: Admission)
      requires Valid() && me !in calls
      modifies this
      ensures Valid() && MineIs(if verdict.None? then Decoding else Gone)
      ensures verdict == Answer(entry, turned, wait) && IsOurs(entry) && IsOurs(turned)
    {
      Yield();
      entry, turned := State(), State();
      Take(Enter(me));
      if calls[me].Decoding? {
        return None, entry, turned;
      }
      if calls[me].Gone? {
        return Some(Saturated), entry, turned;
      }
      Yield();
      turned := State();
      match wait {
        case PermitCame =>
          if permits < limits.maxConcurrentDecodes {
            Take(Grant(me));
            verdict := None;
          } else {
            Take(GiveUp(me));
            verdict := Some(Saturated);
          }
        case ContextEnded =>
          Take(GiveUp(me));
          verdict := Some(Cancelled);
        case TimedOut =>
          Take(GiveUp(me));
          verdict := Some(Saturated);
      }
      Yield();
      Take(LeaveQueue(me));
    }

    // Validate: whatever happens, a panic of either decoder call included, what
    // this caller took is returned, and while it decodes it holds one permit.
    method Validate(contextDone: bool, wait: Wait, declaredMime: string, config: Decoding, full: Decoding)
      returns (verdict: Verdict, ghost entry: Admission, ghost turned: Admission)
      requires Valid() && me !in calls && Bounds64(config) && Bounds64(full)
      modifies this
      ensures Valid() && (me in calls ==> MineIs(Gone))
      ensures !contextDone ==>
                && IsOurs(entry) && IsOurs(turned)
                && match Answer(entry, turned, wait)
                   case Some(refusal) => verdict == refusal
                   case None =>
                     if Acceptable(limits, declaredMime, config, full) then verdict.Valid? else verdict == Invalid
      ensures verdict.Valid? ==> Sound(verdict.image, limits, declaredMime, config, full)
      ensures contextDone ==> verdict.Cancelled?
    {
      if contextDone {
        return Cancelled, State(), State();
      }
      var refused;
      refused, entry, turned := Acquire(wait);
      if refused.Some? {
        return refused.value, entry, turned;
      }
      Yield();
      verdict := ValidateWithDecoder(declaredMime, config, full);
      Yield();
      Take(Release(me));
    }

    method ValidateWithDecoder(declaredMime: string, config: Decoding, full: Decoding) returns (verdict: Verdict)
      requires limits.Valid() && Bounds64(config) && Bounds64(full)
      ensures verdict in {Invalid} || (verdict.Valid? && Sound(verdict.image, limits, declaredMime, config, full))
      ensures verdict.Valid? <==> Acceptable(limits, declaredMime, config, full)
    {
      if !config.Decoded? {
        return Invalid;
      }
      var header := config.config;
      GeometryIsExact(header.width, header.height, limits);
      var mime := CanonicalMime(header.format);
      if mime == "" || mime != declaredMime || !GeometryAllowed(header.width, header.height, limits) {
        return Invalid;
      }
      if !full.Decoded? || full.config.format != header.format {
        return Invalid;
      }
      if full.config.width != header.width || full.config.height != header.height
         || !GeometryAllowed(full.config.width, full.config.height, limits) {
        return Invalid;
      }
      verdict := Verdict.Valid(Validated(header.format, header.width, header.height));
    }
  }

  // Both decodes agree, on an admitted format of the declared type, within bounds.
  predicate Acceptable(limits: Limits, declaredMime: string, config: Decoding, full: Decoding) {
    && config.Decoded? && full == config
    && CanonicalMime(config.config.format) == declaredMime != ""
    && WithinBounds(config.config.width, config.config.height, limits)
  }

  predicate WithinBounds(width: int, height: int, limits: Limits) {
    && 0 < width <= limits.maxWidth && 0 < height <= limits.maxHeight
    && width * height <= limits.maxPixels
    && width <= height * limits.maxAspectRatio && height <= width * limits.maxAspectRatio
  }

  predicate Sound(image: Validated, limits: Limits, declaredMime: string, config: Decoding, full: Decoding) {
    && Acceptable(limits, declaredMime, config, full)
    && image == Validated(config.config.format, config.config.width, config.config.height)
  }
}
