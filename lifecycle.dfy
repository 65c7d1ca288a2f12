/**
 * The render-loop state of `useThreeSetup`: the closure variables
 * `isAnimating` and `frameId`, the Three.js objects (present together or not
 * at all), the host's frame scheduler and the listeners, driven by
 * `onMounted`, the frame callbacks, the `watch` on `props.animation.animate`,
 * the resize and mouse listeners, and `onBeforeUnmount`. Each handler is a
 * function from the old state to the new one; `Deliver` is the host that
 * calls them.
 */
module Lifecycle {
  import opened Js
  import opened Uniforms

  /** Where the component is in its life. */
  datatype Phase = Created | Mounted | Unmounted

  /**
   * The renderer, scene, camera and mesh, created together by `setupScene`:
   * the camera's aspect ratio, the renderer's drawing size, the material's
   * uniforms, how many frames the renderer has drawn, and whether
   * `cleanup` has disposed of them.
   */
  datatype Resources = Resources(aspect: Num, size: Size, uniforms: Uniforms, renders: nat, disposed: bool)

  /** The component's state together with the host's frame scheduler and listeners. */
  datatype State = State(
    phase: Phase,
    props: Props,
    container: Option<Size>,
    isAnimating: bool,
    frameId: Option<nat>,
    resources: Option<Resources>,
    nextFrame: nat,
    pending: set<nat>,
    resizeListener: bool,
    mouseListener: bool)

  /**
   * The state right after `useThreeSetup` ran: `isAnimating` is true
   * whatever the props say, nothing is created, scheduled or listened to.
   * `container` is the element bound to the template ref, if any.
   */
  function Init(props: Props, container: Option<Size>): (s: State)
    ensures s.isAnimating && s.pending == {} && s.resources.None?
  {
    State(Created, props, container, true, None, None, 1, {}, false, false)
  }

  // ---------------------------------------------------------------------
  // The handlers

  /** `props.animation?.speed ?? 10`. */
  function Speed(animation: Option<Animation>): (v: real)
    ensures animation.None? ==> v == 10.0
    ensures animation.Some? ==> v == animation.value.speed
  {
    if animation.Some? then animation.value.speed else 10.0
  }

  /** The value written to `u_time` at clock reading `now` (milliseconds). */
  function TickTime(now: real, animation: Option<Animation>): (t: real)
    ensures animation.None? ==> t * 1000.0 == now
    ensures t * 10000.0 == now * Speed(animation)
  {
    now * 0.001 * Speed(animation) / 10.0
  }

  /** With a clock that does not go back and a speed that is not negative, `u_time` does not go back. */
  lemma TickTimeMonotone(now1: real, now2: real, animation: Option<Animation>)
    requires now1 <= now2 && Speed(animation) >= 0.0
    ensures TickTime(now1, animation) <= TickTime(now2, animation)
  {
    var k := Speed(animation);
    assert TickTime(now1, animation) == 0.0001 * (now1 * k);
    assert TickTime(now2, animation) == 0.0001 * (now2 * k);
    assert now2 * k - now1 * k == (now2 - now1) * k;
    NonNegativeProduct(now2 - now1, k);
  }

  lemma NonNegativeProduct(a: real, b: real)
    requires a >= 0.0 && b >= 0.0
    ensures a * b >= 0.0
  {
  }

  /**
   * `setupScene()`: without the container or the canvas nothing is
   * created; otherwise the renderer, camera and mesh are sized to the
   * container, and the material gets the uniforms for the current props
   * and a palette computed once, here.
   */
  function SetupScene(s: State, canvas: bool, draws: Draws): (t: State)
    ensures s.container.None? || !canvas ==> t == s
    ensures t.(resources := s.resources) == s
    ensures s.container.Some? && canvas ==>
              t.resources.Some?
              && t.resources.value.uniforms == CreateUniforms(ComputeColors(s.props.raysColor, draws), s.props, s.container).value
              && t.resources.value.size == s.container.value
              && t.resources.value.renders == 0 && !t.resources.value.disposed
  {
    if s.container.None? || !canvas then s
    else
      var size := s.container.value;
      var u := CreateUniforms(ComputeColors(s.props.raysColor, draws), s.props, s.container).value;
      s.(resources := Some(Resources(Quotient(size.width as real, size.height as real), size, u, 0, false)))
  }

  /**
   * `animate()`: unless animating with all resources present, nothing
   * happens; otherwise `u_time` is set, one frame is drawn, and the next
   * frame is requested, its id kept in `frameId`.
   */
  function Animate(s: State, now: real): (t: State)
    ensures !s.isAnimating || s.resources.None? ==> t == s
    ensures t.(resources := s.resources, frameId := s.frameId, nextFrame := s.nextFrame, pending := s.pending) == s
    ensures s.isAnimating && s.resources.Some? ==>
              t.resources.Some?
              && t.resources.value.uniforms == s.resources.value.uniforms.(time := TickTime(now, s.props.animation))
              && t.resources.value.renders == s.resources.value.renders + 1
              && t.resources.value.(uniforms := s.resources.value.uniforms, renders := s.resources.value.renders)
                 == s.resources.value
              && t.frameId == Some(s.nextFrame) && t.nextFrame == s.nextFrame + 1
              && t.pending == s.pending + {s.nextFrame}
  {
    if !s.isAnimating || s.resources.None? then s
    else
      var r := s.resources.value;
      s.(resources := Some(r.(uniforms := r.uniforms.(time := TickTime(now, s.props.animation)), renders := r.renders + 1)),
         frameId := Some(s.nextFrame),
         nextFrame := s.nextFrame + 1,
         pending := s.pending + {s.nextFrame})
  }

  /** `animate()` changes the state exactly when it is animating and the resources exist. */
  lemma AnimateActs(s: State, now: real)
    ensures Animate(s, now) != s <==> s.isAnimating && s.resources.Some?
  {
  }

  /** `cleanup()`: cancel the frame in `frameId`, if any, and dispose of the resources, if any. */
  function Cleanup(s: State): (t: State)
    ensures s.frameId.Some? ==> s.frameId.value !in t.pending
    ensures t.pending <= s.pending
    ensures t.resources.Some? <==> s.resources.Some?
    ensures t.resources.Some? ==> t.resources.value.disposed
  {
    var pending := if s.frameId.Some? then s.pending - {s.frameId.value} else s.pending;
    var resources := if s.resources.Some? then Some(s.resources.value.(disposed := true)) else None;
    s.(pending := pending, resources := resources)
  }

  /** `cleanup()` on a component that created and scheduled nothing changes nothing. */
  lemma CleanupWhenNothingCreated(s: State)
    requires s.frameId.None? && s.resources.None?
    ensures Cleanup(s) == s
  {
  }

  /** `handleResize()`: camera aspect, renderer size, resolution and ray anchors follow the container. */
  function HandleResize(s: State): (t: State)
    ensures s.container.None? || s.resources.None? ==> t == s
    ensures t.(resources := s.resources) == s
    ensures t.resources.Some? ==> t.resources.value.uniforms.time == s.resources.value.uniforms.time
    ensures s.container.Some? && s.resources.Some? ==>
              t.resources.Some? &&
              var w, h := s.container.value.width, s.container.value.height;
              var u, v := s.resources.value.uniforms, t.resources.value.uniforms;
              && v.resolution == Vec2(w as real, h as real)
              && v.rayPos1 == RayPos1(s.props.position, w, h)
              && v.rayPos2 == RayPos2(s.props.position, w, h)
              && v.(resolution := u.resolution, rayPos1 := u.rayPos1, rayPos2 := u.rayPos2) == u
              && t.resources.value.size == s.container.value
              && t.resources.value.renders == s.resources.value.renders
              && t.resources.value.disposed == s.resources.value.disposed
  {
    if s.container.None? || s.resources.None? then s
    else
      var size, r := s.container.value, s.resources.value;
      var w, h := size.width, size.height;
      s.(resources := Some(r.(aspect := Quotient(w as real, h as real), size := size,
                               uniforms := ResizeUniforms(r.uniforms, s.props.position, w, h))))
  }

  /** `handleMouseMove(event)`: `u_mouse` becomes the pointer's position in the container; nothing else changes. */
  function HandleMouseMove(s: State, clientX: real, clientY: real, rect: Rect): (t: State)
    ensures s.resources.None? || s.container.None? ==> t == s
    ensures t.(resources := s.resources) == s
    ensures s.resources.Some? && s.container.Some? ==>
              t.resources.Some? && t.resources.value.uniforms.mouse == PointerAt(clientX, clientY, rect)
              && t.resources.value.(uniforms := s.resources.value.uniforms) == s.resources.value
              && t.resources.value.uniforms.(mouse := s.resources.value.uniforms.mouse) == s.resources.value.uniforms
  {
    if s.resources.None? || s.container.None? then s
    else
      var r := s.resources.value;
      s.(resources := Some(r.(uniforms := MouseUniforms(r.uniforms, clientX, clientY, rect))))
  }

  /** The value the `watch` observes: `props.animation?.animate`. */
  function Watched(props: Props): Option<bool> {
    if props.animation.Some? then Some(props.animation.value.animate) else None
  }

  /**
   * The `watch` callback: `isAnimating` becomes the new value, `true` when
   * it is `undefined`; `animate()` is called only for `true` and only while
   * `frameId` is still null.
   */
  function OnAnimateChanged(s: State, v: Option<bool>, now: real): (t: State)
    ensures t.isAnimating == v.GetOr(true)
    ensures v != Some(true) || s.frameId.Some? ==> t == s.(isAnimating := v.GetOr(true))
    ensures v == Some(true) && s.frameId.None? ==> t == Animate(s.(isAnimating := true), now)
  {
    var t := s.(isAnimating := v.GetOr(true));
    if v == Some(true) && t.frameId.None? then Animate(t, now) else t
  }

  /** `onMounted`: set up the scene, run `animate()` once, and start listening. */
  function OnMounted(s: State, canvas: bool, draws: Draws, now: real): (t: State)
    ensures t.phase == Mounted && t.resizeListener && (t.mouseListener <==> s.container.Some?)
  {
    var t := Animate(SetupScene(s, canvas, draws), now);
    t.(phase := Mounted, resizeListener := true, mouseListener := t.container.Some?)
  }

  /** `onBeforeUnmount`: `cleanup()`, then stop listening. */
  function OnBeforeUnmount(s: State): (t: State)
    ensures t.phase == Unmounted && !t.resizeListener && !t.mouseListener
  {
    Cleanup(s).(phase := Unmounted, resizeListener := false, mouseListener := false)
  }

  // ---------------------------------------------------------------------
  // The host

  /** What the browser and Vue can do to the component. */
  datatype Event =
    | Mount(canvas: bool, draws: Draws, now: real)
    | Frame(id: nat, now: real)
    | SetProps(props: Props, now: real)
    | Resize(size: Size)
    | MouseMove(clientX: real, clientY: real, rect: Rect)
    | Unmount

  /**
   * One event. Vue mounts once and unmounts a mounted component; the
   * browser fires only requested, uncancelled frames and calls only the
   * listeners that are attached; the watcher runs when the watched value
   * changes and is stopped on unmount; a window resize is seen through the
   * container's new size.
   */
  function Deliver(s: State, e: Event): (t: State)
    ensures e.Mount? && s.phase != Created ==> t == s
    ensures e.Frame? && e.id !in s.pending ==> t == s
    ensures e.SetProps? && (s.phase == Unmounted || Watched(e.props) == Watched(s.props)) ==> t == s.(props := e.props)
    ensures e.MouseMove? && !s.mouseListener ==> t == s
    ensures e.MouseMove? && s.mouseListener && s.resources.Some? && s.container.Some? ==>
              t.resources.Some? && t.resources.value.uniforms.mouse == PointerAt(e.clientX, e.clientY, e.rect)
    ensures e.Unmount? && s.phase != Mounted ==> t == s
  {
    match e
    case Mount(canvas, draws, now) =>
      if s.phase == Created then OnMounted(s, canvas, draws, now) else s
    case Frame(id, now) =>
      if id in s.pending then Animate(s.(pending := s.pending - {id}), now) else s
    case SetProps(props, now) =>
      var t := s.(props := props);
      if s.phase != Unmounted && Watched(props) != Watched(s.props) then OnAnimateChanged(t, Watched(props), now) else t
    case Resize(size) =>
      var t := if s.container.Some? then s.(container := Some(size)) else s;
      if t.resizeListener then HandleResize(t) else t
    case MouseMove(clientX, clientY, rect) =>
      if s.mouseListener then HandleMouseMove(s, clientX, clientY, rect) else s
    case Unmount =>
      if s.phase == Mounted then OnBeforeUnmount(s) else s
  }

  /** A sequence of events, in order. */
  function Run(s: State, es: seq<Event>): State
    decreases |es|
  {
    if |es| == 0 then s else Run(Deliver(s, es[0]), es[1..])
  }

  // ---------------------------------------------------------------------
  // The invariant

  /**
   * At most the frame named by `frameId` is pending; before mounting
   * nothing exists; after unmounting nothing is pending or listened to and
   * the resources are disposed; the mouse listener needs the container.
   */
  predicate Inv(s: State) {
    && (forall id :: id in s.pending ==> s.frameId == Some(id))
    && (s.phase == Created ==> s.resources.None? && s.frameId.None? && s.pending == {}
                               && !s.resizeListener && !s.mouseListener)
    && (s.phase == Unmounted ==> s.pending == {} && !s.resizeListener && !s.mouseListener)
    && (s.resources.Some? ==> (s.resources.value.disposed <==> s.phase == Unmounted))
    && (s.mouseListener ==> s.container.Some?)
  }

  lemma InitInv(props: Props, container: Option<Size>)
    ensures Inv(Init(props, container))
  {
  }

  /** Every event keeps the invariant. */
  lemma DeliverInv(s: State, e: Event)
    requires Inv(s)
    ensures Inv(Deliver(s, e))
  {
    match e
    case Mount(canvas, draws, now) => MountInv(s, canvas, draws, now);
    case Frame(id, now) => FrameInv(s, id, now);
    case SetProps(props, now) => SetPropsInv(s, props, now);
    case Resize(size) => ResizeInv(s, size);
    case MouseMove(clientX, clientY, rect) =>
    case Unmount => UnmountInv(s);
  }

  lemma MountInv(s: State, canvas: bool, draws: Draws, now: real)
    requires Inv(s)
    ensures Inv(Deliver(s, Mount(canvas, draws, now)))
  {
  }

  lemma FrameInv(s: State, id: nat, now: real)
    requires Inv(s)
    ensures Inv(Deliver(s, Frame(id, now)))
  {
    if id in s.pending {
      assert s.pending - {id} == {};
    }
  }

  lemma SetPropsInv(s: State, props: Props, now: real)
    requires Inv(s)
    ensures Inv(Deliver(s, SetProps(props, now)))
  {
  }

  lemma ResizeInv(s: State, size: Size)
    requires Inv(s)
    ensures Inv(Deliver(s, Resize(size)))
  {
  }

  lemma UnmountInv(s: State)
    requires Inv(s)
    ensures Inv(Deliver(s, Unmount))
  {
  }

  /** Every run keeps the invariant. */
  lemma {:induction false} RunInv(s: State, es: seq<Event>)
    requires Inv(s)
    ensures Inv(Run(s, es))
    decreases |es|
  {
    if |es| > 0 {
      DeliverInv(s, es[0]);
      RunInv(Deliver(s, es[0]), es[1..]);
    }
  }

  /** At most one frame is ever pending, so at most one loop runs. */
  lemma AtMostOnePending(s: State)
    requires Inv(s)
    ensures |s.pending| <= 1
  {
    if s.pending != {} {
      var id :| id in s.pending;
      assert s.pending == {id};
    }
  }

  /** `cleanup()` leaves no frame pending. */
  lemma CleanupCancels(s: State)
    requires Inv(s)
    ensures Cleanup(s).pending == {}
  {
    if s.pending != {} {
      var id :| id in s.pending;
      assert s.pending == {s.frameId.value};
    }
  }

  // ---------------------------------------------------------------------
  // Properties of runs

  /** `frameId` is never reset: once a frame was requested it stays non-null. */
  lemma DeliverKeepsFrameId(s: State, e: Event)
    requires s.frameId.Some?
    ensures Deliver(s, e).frameId.Some?
  {
    match e
    case Mount(canvas, draws, now) =>
    case Frame(id, now) =>
    case SetProps(props, now) =>
    case Resize(size) =>
    case MouseMove(clientX, clientY, rect) =>
    case Unmount =>
  }

  lemma {:induction false} RunKeepsFrameId(s: State, es: seq<Event>)
    requires s.frameId.Some?
    ensures Run(s, es).frameId.Some?
    decreases |es|
  {
    if |es| > 0 {
      DeliverKeepsFrameId(s, es[0]);
      RunKeepsFrameId(Deliver(s, es[0]), es[1..]);
    }
  }

  /** How many frames have been drawn. */
  function Renders(s: State): nat {
    if s.resources.Some? then s.resources.value.renders else 0
  }

  /**
   * A dead loop: mounted or unmounted, nothing pending, and no way for the
   * watcher to call `animate()` with effect, because `frameId` is set or
   * the scene was never created.
   */
  predicate Dead(s: State) {
    s.phase != Created && s.pending == {} && (s.frameId.Some? || s.resources.None?)
  }

  /** A dead loop stays dead and draws nothing, whatever happens. */
  lemma DeadStaysDead(s: State, e: Event)
    requires Inv(s) && Dead(s)
    ensures Dead(Deliver(s, e)) && Renders(Deliver(s, e)) == Renders(s)
  {
    match e
    case Mount(canvas, draws, now) =>
    case Frame(id, now) =>
    case SetProps(props, now) =>
    case Resize(size) =>
    case MouseMove(clientX, clientY, rect) =>
    case Unmount =>
  }

  lemma {:induction false} RunDeadStaysDead(s: State, es: seq<Event>)
    requires Inv(s) && Dead(s)
    ensures Dead(Run(s, es)) && Renders(Run(s, es)) == Renders(s)
    decreases |es|
  {
    if |es| > 0 {
      DeadStaysDead(s, es[0]);
      DeliverInv(s, es[0]);
      RunDeadStaysDead(Deliver(s, es[0]), es[1..]);
    }
  }

  /** Props that turn the animation off. */
  predicate TurnsOff(props: Props) {
    Watched(props) == Some(false)
  }

  /**
   * Turning the animation off while a frame is pending lets that frame
   * fire without drawing or requesting another: the loop is dead.
   */
  lemma DisableStopsLoop(s: State, id: nat, off: Props, t1: real, t2: real)
    requires Inv(s) && s.phase == Mounted && id in s.pending
    requires TurnsOff(off) && !TurnsOff(s.props)
    ensures var stopped := Run(s, [SetProps(off, t1), Frame(id, t2)]);
            Dead(stopped) && Renders(stopped) == Renders(s)
  {
    var s1 := Deliver(s, SetProps(off, t1));
    assert !s1.isAnimating && s1.pending == s.pending;
    var es := [SetProps(off, t1), Frame(id, t2)];
    assert es[1..] == [Frame(id, t2)] && es[1..][1..] == [];
    assert Run(s, es) == Run(s1, [Frame(id, t2)]);
    assert Run(s1, [Frame(id, t2)]) == Run(Deliver(s1, Frame(id, t2)), []);
    assert s.pending == {id};
  }

  /**
   * Turning the animation back on does not restart a stopped loop:
   * `isAnimating` is true again, yet nothing is pending, because `frameId`
   * was never reset.
   */
  lemma ReenableDoesNotRestart(s: State, on: Props, now: real)
    requires Inv(s) && Dead(s) && s.phase == Mounted && s.frameId.Some?
    requires Watched(on) == Some(true) && Watched(s.props) != Some(true)
    ensures var t := Deliver(s, SetProps(on, now));
            t.isAnimating && t.pending == {} && Renders(t) == Renders(s)
  {
  }

  /**
   * The watcher does restart a loop that never requested a frame. Turning
   * the animation off before mounting makes the first `animate()` a no-op,
   * so `frameId` stays null; turning it on again then draws and requests
   * frame 1.
   */
  lemma ReenableBeforeFirstFrame(props: Props, off: Props, on: Props, size: Size, draws: Draws, t0: real, t1: real, t2: real)
    requires Watched(props) != Some(false) && TurnsOff(off) && Watched(on) == Some(true)
    ensures var s := Run(Init(props, Some(size)), [SetProps(off, t0), Mount(true, draws, t1)]);
            s.resources.Some? && s.frameId.None? && s.pending == {} && Renders(s) == 0 && !Dead(s)
    ensures var t := Run(Init(props, Some(size)), [SetProps(off, t0), Mount(true, draws, t1), SetProps(on, t2)]);
            t.isAnimating && t.frameId == Some(1) && t.pending == {1} && Renders(t) == 1
            && t.resources.value.uniforms.time == TickTime(t2, on.animation)
  {
    var s0 := Init(props, Some(size));
    var s1 := Deliver(s0, SetProps(off, t0));
    var s2 := Deliver(s1, Mount(true, draws, t1));
    var s3 := Deliver(s2, SetProps(on, t2));
    assert Run(s0, [SetProps(off, t0), Mount(true, draws, t1)]) == s2 by {
      assert [SetProps(off, t0), Mount(true, draws, t1)][1..] == [Mount(true, draws, t1)];
      assert Run(s2, []) == s2;
    }
    assert Run(s0, [SetProps(off, t0), Mount(true, draws, t1), SetProps(on, t2)]) == s3 by {
      assert [SetProps(off, t0), Mount(true, draws, t1), SetProps(on, t2)][1..] == [Mount(true, draws, t1), SetProps(on, t2)];
      assert [Mount(true, draws, t1), SetProps(on, t2)][1..] == [SetProps(on, t2)];
      assert Run(s2, [SetProps(on, t2)]) == Run(s3, []) == s3;
      assert Run(s1, [Mount(true, draws, t1), SetProps(on, t2)]) == Run(s2, [SetProps(on, t2)]);
    }
  }

  /** Once unmounted, no event changes the resources: nothing is drawn, resized or pointed at. */
  lemma {:induction false} NothingAfterUnmount(s: State, es: seq<Event>)
    requires Inv(s) && s.phase == Unmounted
    ensures Run(s, es).resources == s.resources && Run(s, es).phase == Unmounted
    decreases |es|
  {
    if |es| > 0 {
      DeliverInv(s, es[0]);
      NothingAfterUnmount(Deliver(s, es[0]), es[1..]);
    }
  }

  /**
   * Mounting starts the loop even when the props say `animate: false`:
   * `isAnimating` starts true and the watcher only sees changes.
   */
  lemma MountIgnoresAnimateFalse(props: Props, size: Size, draws: Draws, now: real)
    requires TurnsOff(props)
    ensures var t := Deliver(Init(props, Some(size)), Mount(true, draws, now));
            t.pending == {1} && t.frameId == Some(1) && Renders(t) == 1
  {
  }

  /**
   * Mounting with a container and a canvas gives the material the uniforms
   * `createUniforms` builds from the props, the container and the palette
   * computed once from the draws; the first frame then sets only `u_time`.
   */
  lemma MountUniforms(props: Props, size: Size, draws: Draws, now: real)
    ensures var t := Deliver(Init(props, Some(size)), Mount(true, draws, now));
            t.resources.Some?
            && t.resources.value.uniforms
               == CreateUniforms(ComputeColors(props.raysColor, draws), props, Some(size)).value.(time := TickTime(now, props.animation))
            && t.resources.value.uniforms.mouse == Centre
  {
  }

  /** Without a container or a canvas, mounting creates and schedules nothing. */
  lemma MountWithoutScene(props: Props, container: Option<Size>, canvas: bool, draws: Draws, now: real)
    requires container.None? || !canvas
    ensures var t := Deliver(Init(props, container), Mount(canvas, draws, now));
            t.resources.None? && t.pending == {} && Dead(t)
  {
  }

  /** A frame that draws sets `u_time` from the clock and requests exactly one further frame. */
  lemma FrameTick(s: State, id: nat, now: real)
    requires Inv(s) && id in s.pending && s.isAnimating && s.resources.Some?
    ensures var t := Deliver(s, Frame(id, now));
            t.resources.Some? && t.resources.value.uniforms.time == TickTime(now, s.props.animation)
            && Renders(t) == Renders(s) + 1 && t.pending == {s.nextFrame} && t.frameId == Some(s.nextFrame)
  {
    assert s.pending == {id};
  }

  /**
   * The colours are fixed when the scene is set up: no later event changes
   * them, so the `random` palette is drawn once and not on every frame.
   */
  lemma ColoursFixed(s: State, e: Event)
    requires Inv(s) && s.resources.Some?
    ensures Deliver(s, e).resources.Some?
    ensures Deliver(s, e).resources.value.uniforms.color1 == s.resources.value.uniforms.color1
    ensures Deliver(s, e).resources.value.uniforms.color2 == s.resources.value.uniforms.color2
  {
    match e
    case Mount(canvas, draws, now) =>
    case Frame(id, now) =>
    case SetProps(props, now) =>
    case Resize(size) =>
    case MouseMove(clientX, clientY, rect) =>
    case Unmount =>
  }

  /** After a resize the uniforms that depend on the size are those `createUniforms` gives for the new size. */
  lemma ResizeMatchesCreate(s: State, size: Size, colors: Colors)
    requires s.resizeListener && s.container.Some? && s.resources.Some?
    ensures var u := Deliver(s, Resize(size)).resources.value.uniforms;
            var c := CreateUniforms(colors, s.props, Some(size)).value;
            u.resolution == c.resolution && u.rayPos1 == c.rayPos1 && u.rayPos2 == c.rayPos2
  {
    ResizeAgreesWithCreate(s.resources.value.uniforms, colors, s.props, size.width, size.height);
  }
}
