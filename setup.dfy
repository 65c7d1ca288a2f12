/**
 * `useThreeSetup` as the stateful object it is: the closure variables
 * become fields that the handlers update in place, and the browser's frame
 * scheduler is an object of its own. Every method is proved to perform
 * exactly the step that `Lifecycle` specifies, so the properties proved
 * there hold of this object.
 */
module ThreeSetup {
  import opened Js
  import opened Uniforms
  import L = Lifecycle

  /**
   * `requestAnimationFrame` and `cancelAnimationFrame`: ids are handed out
   * in increasing order; requested, uncancelled and not yet fired frames are
   * pending.
   */
  class FrameScheduler {
    var next: nat
    var pending: set<nat>

    constructor ()
      ensures next == 1 && pending == {}
    {
      next := 1;
      pending := {};
    }

    /** `requestAnimationFrame(callback)`: a fresh id, now pending. */
    method Request() returns (id: nat)
      modifies this
      ensures id == old(next) && next == old(next) + 1
      ensures pending == old(pending) + {id}
    {
      id := next;
      next := next + 1;
      pending := pending + {id};
    }

    /** `cancelAnimationFrame(id)`: the frame will not fire; an unknown id is ignored. */
    method Cancel(id: nat)
      modifies this
      ensures next == old(next) && pending == old(pending) - {id}
    {
      pending := pending - {id};
    }

    /** The browser runs the callback of a pending frame: it is no longer pending. */
    method Fire(id: nat)
      requires id in pending
      modifies this
      ensures next == old(next) && pending == old(pending) - {id}
    {
      pending := pending - {id};
    }
  }

  /** The component's state: the closure variables of `useThreeSetup` and the objects it created. */
  class GodRays {
    var phase: L.Phase
    var props: Props
    var container: Option<Size>
    var isAnimating: bool
    var frameId: Option<nat>
    var resources: Option<L.Resources>
    var resizeListener: bool
    var mouseListener: bool
    const scheduler: FrameScheduler

    /** The state this object is in, together with its scheduler. */
    function State(): L.State
      reads this, scheduler
    {
      L.State(phase, props, container, isAnimating, frameId, resources,
              scheduler.next, scheduler.pending, resizeListener, mouseListener)
    }

    /** `useThreeSetup(props)`, with the element the container ref will be bound to. */
    constructor (props: Props, container: Option<Size>)
      ensures State() == L.Init(props, container)
      ensures fresh(scheduler)
    {
      phase := L.Created;
      this.props := props;
      this.container := container;
      isAnimating := true;
      frameId := None;
      resources := None;
      resizeListener := false;
      mouseListener := false;
      scheduler := new FrameScheduler();
    }

    /** `setupScene()`. */
    method SetupScene(canvas: bool, draws: Draws)
      modifies this
      ensures State() == L.SetupScene(old(State()), canvas, draws)
    {
      if container.None? || !canvas {
        return;
      }
      var size := container.value;
      var colors := ComputeColors(props.raysColor, draws);
      var uniforms := CreateUniforms(colors, props, container).value;
      resources := Some(L.Resources(Quotient(size.width as real, size.height as real), size, uniforms, 0, false));
    }

    /** `animate()`: set `u_time`, draw, request the next frame. */
    method Animate(now: real)
      modifies this, scheduler
      ensures State() == L.Animate(old(State()), now)
    {
      if !isAnimating || resources.None? {
        return;
      }
      var r := resources.value;
      var uniforms := r.uniforms.(time := L.TickTime(now, props.animation));
      resources := Some(r.(uniforms := uniforms, renders := r.renders + 1));
      var id := scheduler.Request();
      frameId := Some(id);
    }

    /** `cleanup()`: cancel the pending frame, then dispose of what was created. */
    method Cleanup()
      modifies this, scheduler
      ensures State() == L.Cleanup(old(State()))
    {
      if frameId.Some? {
        scheduler.Cancel(frameId.value);
      }
      if resources.Some? {
        resources := Some(resources.value.(disposed := true));
      }
    }

    /** `handleResize()`. */
    method HandleResize()
      modifies this
      ensures State() == L.HandleResize(old(State()))
    {
      if container.None? || resources.None? {
        return;
      }
      var size, r := container.value, resources.value;
      var uniforms := ResizeUniforms(r.uniforms, props.position, size.width, size.height);
      resources := Some(r.(aspect := Quotient(size.width as real, size.height as real), size := size, uniforms := uniforms));
    }

    /** `handleMouseMove(event)`. */
    method HandleMouseMove(clientX: real, clientY: real, rect: Rect)
      modifies this
      ensures State() == L.HandleMouseMove(old(State()), clientX, clientY, rect)
    {
      if resources.None? || container.None? {
        return;
      }
      var r := resources.value;
      resources := Some(r.(uniforms := MouseUniforms(r.uniforms, clientX, clientY, rect)));
    }

    /** The `watch` callback on `props.animation?.animate`. */
    method OnAnimateChanged(v: Option<bool>, now: real)
      modifies this, scheduler
      ensures State() == L.OnAnimateChanged(old(State()), v, now)
    {
      isAnimating := v.GetOr(true);
      if v == Some(true) && frameId.None? {
        Animate(now);
      }
    }

    /** `onMounted`. */
    method OnMounted(canvas: bool, draws: Draws, now: real)
      modifies this, scheduler
      ensures State() == L.OnMounted(old(State()), canvas, draws, now)
    {
      SetupScene(canvas, draws);
      Animate(now);
      phase := L.Mounted;
      resizeListener := true;
      mouseListener := container.Some?;
    }

    /** `onBeforeUnmount`. */
    method OnBeforeUnmount()
      modifies this, scheduler
      ensures State() == L.OnBeforeUnmount(old(State()))
    {
      Cleanup();
      phase := L.Unmounted;
      resizeListener := false;
      mouseListener := false;
    }

    /** The host delivers one event: Vue's hooks and watcher, the browser's frames and listeners. */
    method Deliver(e: L.Event)
      modifies this, scheduler
      ensures State() == L.Deliver(old(State()), e)
    {
      match e
      case Mount(canvas, draws, now) =>
        if phase == L.Created {
          OnMounted(canvas, draws, now);
        }
      case Frame(id, now) =>
        if id in scheduler.pending {
          scheduler.Fire(id);
          Animate(now);
        }
      case SetProps(newProps, now) =>
        var changed := L.Watched(newProps) != L.Watched(props);
        props := newProps;
        if phase != L.Unmounted && changed {
          OnAnimateChanged(L.Watched(newProps), now);
        }
      case Resize(size) =>
        if container.Some? {
          container := Some(size);
        }
        if resizeListener {
          HandleResize();
        }
      case MouseMove(clientX, clientY, rect) =>
        if mouseListener {
          HandleMouseMove(clientX, clientY, rect);
        }
      case Unmount =>
        if phase == L.Mounted {
          OnBeforeUnmount();
        }
    }

    /** The host delivers a sequence of events; the invariant holds throughout. */
    method Run(es: seq<L.Event>)
      requires L.Inv(State())
      modifies this, scheduler
      ensures State() == L.Run(old(State()), es)
      ensures L.Inv(State())
    {
      var i := 0;
      while i < |es|
        invariant 0 <= i <= |es|
        invariant L.Run(State(), es[i..]) == L.Run(old(State()), es)
        invariant L.Inv(State())
      {
        ghost var before := State();
        L.DeliverInv(before, es[i]);
        Deliver(es[i]);
        assert es[i..][1..] == es[i + 1..];
        i := i + 1;
      }
    }
  }
}
