/**
 * The props the component reads and the shader inputs it derives from them:
 * the colour palette (`computeColors`), the initial uniforms
 * (`createUniforms`), and the two handlers that overwrite some of them in
 * place (`handleResize`, `handleMouseMove`). Everything here is a value; the
 * in-place updates are applied by the render-loop state in `Lifecycle`.
 */
module Uniforms {
  import opened Js
  import opened Utils
  import opened Constants

  // ---------------------------------------------------------------------
  // Props

  /** `props.animation`: both members are required when the object is given. */
  datatype Animation = Animation(animate: bool, speed: real)

  /**
   * `props.raysColor`. The mode is kept as a string: the `switch` has a
   * `default` branch for any value other than `single`, `multi` and `random`.
   */
  datatype RaysColor = RaysColor(mode: string, color: Option<string>, color1: Option<string>, color2: Option<string>)

  /** The props the core reads; every one of them is optional. */
  datatype Props = Props(
    animation: Option<Animation>,
    raysColor: Option<RaysColor>,
    intensity: Option<real>,
    rays: Option<real>,
    reach: Option<real>,
    position: Option<real>)

  /** No prop given at all. */
  const NoProps := Props(None, None, None, None, None, None)

  /** The container element's `clientWidth` and `clientHeight`. */
  datatype Size = Size(width: nat, height: nat)

  // ---------------------------------------------------------------------
  // computeColors

  /** Three colour channels, as `colorToRGBA` produced them (they may be NaN or `undefined`). */
  datatype Rgb = Rgb(r: Num, g: Num, b: Num)

  /** The result of `computeColors`. */
  datatype Colors = Colors(color1: Rgb, color2: Rgb, opacity: Num)

  /** The palette used when no colour is configured or the mode is not recognised. */
  const DefaultColors := Colors(Rgb(Val(0.6), Val(0.8), Val(1.0)), Rgb(Val(0.4), Val(0.6), Val(0.9)), Val(1.0))

  /** The six `Math.random()` results the `random` mode consumes, in call order. */
  datatype Draws = Draws(r1: real, g1: real, b1: real, r2: real, g2: real, b2: real)

  /** What `Math.random` guarantees of each draw: it lies in `[0, 1)`. */
  predicate ValidDraws(d: Draws) {
    0.0 <= d.r1 < 1.0 && 0.0 <= d.g1 < 1.0 && 0.0 <= d.b1 < 1.0
    && 0.0 <= d.r2 < 1.0 && 0.0 <= d.g2 < 1.0 && 0.0 <= d.b2 < 1.0
  }

  /** The first three channels of a parsed colour. */
  function RgbOf(c: Rgba): Rgb {
    Rgb(c.r, c.g, c.b)
  }

  /**
   * `computeColors()`: the palette for the configured colour mode. `single`
   * uses one parsed colour twice and its alpha as the opacity, `multi` two
   * parsed colours and the smaller alpha, `random` six fresh draws.
   */
  function ComputeColors(raysColor: Option<RaysColor>, draws: Draws): (c: Colors)
    ensures raysColor.None? ==> c == DefaultColors
    ensures raysColor.Some? && raysColor.value.mode !in {"single", "multi", "random"} ==> c == DefaultColors
    ensures c.opacity != Undef && c.color1.r != Undef && c.color2.r != Undef
  {
    if raysColor.None? then DefaultColors
    else
      var rc := raysColor.value;
      if rc.mode == "single" then
        var c := ColorToRGBA(rc.color);
        Colors(RgbOf(c), RgbOf(c), c.a)
      else if rc.mode == "multi" then
        var c1 := ColorToRGBA(rc.color1);
        var c2 := ColorToRGBA(rc.color2);
        Colors(RgbOf(c1), RgbOf(c2), Min(c1.a, c2.a))
      else if rc.mode == "random" then
        Colors(Rgb(Val(draws.r1), Val(draws.g1), Val(draws.b1)), Rgb(Val(draws.r2), Val(draws.g2), Val(draws.b2)), Val(1.0))
      else DefaultColors
  }

  /** In `single` mode both colours are the one parsed colour, and the opacity is its alpha. */
  lemma SingleSameColor(color: Option<string>, color1: Option<string>, color2: Option<string>, draws: Draws)
    ensures var c := ComputeColors(Some(RaysColor("single", color, color1, color2)), draws);
            c.color1 == c.color2 == RgbOf(ColorToRGBA(color)) && c.opacity == ColorToRGBA(color).a
  {
  }

  /** `single` mode without a colour is opaque white, not the default palette. */
  lemma SingleWithoutColor(color1: Option<string>, color2: Option<string>, draws: Draws)
    ensures ComputeColors(Some(RaysColor("single", None, color1, color2)), draws)
         == Colors(Rgb(Val(1.0), Val(1.0), Val(1.0)), Rgb(Val(1.0), Val(1.0), Val(1.0)), Val(1.0))
  {
  }

  /** In `multi` mode the opacity is one of the two alphas and at most both, when both are numbers. */
  lemma MultiOpacity(color: Option<string>, color1: Option<string>, color2: Option<string>, draws: Draws)
    ensures var c := ComputeColors(Some(RaysColor("multi", color, color1, color2)), draws);
            var a1, a2 := ColorToRGBA(color1).a, ColorToRGBA(color2).a;
            c.color1 == RgbOf(ColorToRGBA(color1)) && c.color2 == RgbOf(ColorToRGBA(color2))
            && ((a1.Val? || a1.Inf?) && (a2.Val? || a2.Inf?) ==>
                  (c.opacity == a1 || c.opacity == a2) && AtMost(c.opacity, a1) && AtMost(c.opacity, a2))
            && (a1 == NaN || a2 == NaN ==> c.opacity == NaN)
  {
  }

  /** In `random` mode every channel is a draw in `[0, 1)` and the opacity is 1. */
  lemma RandomInUnit(color: Option<string>, color1: Option<string>, color2: Option<string>, draws: Draws)
    requires ValidDraws(draws)
    ensures var c := ComputeColors(Some(RaysColor("random", color, color1, color2)), draws);
            c.opacity == Val(1.0)
            && c.color1.r.Val? && 0.0 <= c.color1.r.v < 1.0
            && c.color1.g.Val? && 0.0 <= c.color1.g.v < 1.0
            && c.color1.b.Val? && 0.0 <= c.color1.b.v < 1.0
            && c.color2.r.Val? && 0.0 <= c.color2.r.v < 1.0
            && c.color2.g.Val? && 0.0 <= c.color2.g.v < 1.0
            && c.color2.b.Val? && 0.0 <= c.color2.b.v < 1.0
  {
  }

  /** Only the `random` mode reads the draws. */
  lemma DrawsOnlyForRandom(rc: RaysColor, d1: Draws, d2: Draws)
    requires rc.mode != "random"
    ensures ComputeColors(Some(rc), d1) == ComputeColors(Some(rc), d2)
  {
  }

  // ---------------------------------------------------------------------
  // createUniforms

  /** A two-component uniform value. */
  datatype Vec2 = Vec2(x: real, y: real)

  /** `u_mouse`: the quotients of the pointer position may be NaN or infinite. */
  datatype Pointer = Pointer(x: Num, y: Num)

  /** `new THREE.Vector4(r, g, b, 1)`. */
  datatype Vec4 = Vec4(x: Num, y: Num, z: Num, w: real)

  /** The `.value` of each uniform handed to the shader material. */
  datatype Uniforms = Uniforms(
    resolution: Vec2,
    mouse: Pointer,
    time: real,
    color1: Vec4,
    color2: Vec4,
    intensity: real,
    rays: real,
    reach: real,
    rayPos1: Vec2,
    rayPos2: Vec2)

  /** One of the three sliders: the prop, or its default when absent, remapped from `[0, 100]` onto `[0, scale]`. */
  function Knob(x: Option<real>, default: real, scale: real): (r: real)
    ensures x.Some? && x.value == 0.0 ==> r == 0.0
    ensures x.Some? && x.value == 100.0 ==> r == scale
  {
    MapRange(x.GetOr(default), 0.0, 100.0, 0.0, scale)
  }

  /** A slider set inside `[0, 100]` stays inside `[0, scale]`. */
  lemma KnobInRange(x: real, default: real, scale: real)
    requires 0.0 <= x <= 100.0 && scale > 0.0
    ensures 0.0 <= Knob(Some(x), default, scale) <= scale
  {
    if 0.0 < x {
      MapRangeIncreasing(0.0, x, 0.0, 100.0, 0.0, scale);
    }
    if x < 100.0 {
      MapRangeIncreasing(x, 100.0, 0.0, 100.0, 0.0, scale);
    }
  }

  /** The horizontal anchor fraction: `position / 100`, with `position` defaulting to 80. */
  function AnchorFraction(position: Option<real>): (f: real)
    ensures position.None? ==> f == 0.8
    ensures position.Some? ==> f * 100.0 == position.value
  {
    position.GetOr(80.0) / 100.0
  }

  /** `u_rayPos1` for a container of the given size. */
  function RayPos1(position: Option<real>, width: nat, height: nat): (p: Vec2)
    ensures position.None? ==> p == Vec2(0.8 * width as real, -0.4 * height as real)
    ensures p.x * 100.0 == position.GetOr(80.0) * width as real && p.y == -0.4 * height as real
  {
    Vec2(AnchorFraction(position) * width as real, Ray1Y * height as real)
  }

  /** `u_rayPos2`: two hundredths of the width to the right of the first anchor. */
  function RayPos2(position: Option<real>, width: nat, height: nat): (p: Vec2)
    ensures p.y == Ray2Y * height as real
    ensures p.x == RayPos1(position, width, height).x + 0.02 * width as real
  {
    Vec2((AnchorFraction(position) + 0.02) * width as real, Ray2Y * height as real)
  }

  /** The second anchor sits above the first: it is one tenth of the height higher. */
  lemma SecondRayHigher(position: Option<real>, width: nat, height: nat)
    ensures RayPos2(position, width, height).y == RayPos1(position, width, height).y - 0.1 * height as real
  {
  }

  /** The pointer at rest: the centre of the container. */
  const Centre := Pointer(Val(0.5), Val(0.5))

  /**
   * `createUniforms(colors)`: no uniforms without a container; otherwise
   * the container size, the resting pointer, time 0, the two colours with
   * alpha 1, the three sliders and the two ray anchors.
   */
  function CreateUniforms(colors: Colors, props: Props, container: Option<Size>): (u: Option<Uniforms>)
    ensures container.None? <==> u.None?
    ensures u.Some? ==> u.value.resolution == Vec2(container.value.width as real, container.value.height as real)
    ensures u.Some? ==> u.value.mouse == Centre && u.value.time == 0.0
    ensures u.Some? ==> u.value.color1.w == 1.0 && u.value.color2.w == 1.0
    ensures u.Some? ==> u.value.intensity == MapRange(props.intensity.GetOr(50.0), 0.0, 100.0, 0.0, 0.5)
    ensures u.Some? ==> u.value.rays == MapRange(props.rays.GetOr(30.0), 0.0, 100.0, 0.0, 0.3)
    ensures u.Some? ==> u.value.reach == MapRange(props.reach.GetOr(40.0), 0.0, 100.0, 0.0, 0.5)
    ensures u.Some? ==> u.value.rayPos1 == RayPos1(props.position, container.value.width, container.value.height)
    ensures u.Some? ==> u.value.rayPos2 == RayPos2(props.position, container.value.width, container.value.height)
  {
    if container.None? then None
    else
      var w, h := container.value.width, container.value.height;
      Some(Uniforms(
        Vec2(w as real, h as real),
        Centre,
        0.0,
        Vec4(colors.color1.r, colors.color1.g, colors.color1.b, 1.0),
        Vec4(colors.color2.r, colors.color2.g, colors.color2.b, 1.0),
        Knob(props.intensity, 50.0, 0.5),
        Knob(props.rays, 30.0, 0.3),
        Knob(props.reach, 40.0, 0.5),
        RayPos1(props.position, w, h),
        RayPos2(props.position, w, h)))
  }

  /** The computed opacity reaches no uniform: two palettes that differ only in opacity give the same uniforms. */
  lemma OpacityUnused(colors: Colors, opacity: Num, props: Props, container: Option<Size>)
    ensures CreateUniforms(colors.(opacity := opacity), props, container) == CreateUniforms(colors, props, container)
  {
  }

  /** The colour uniforms carry the palette's channels. */
  lemma UniformColours(colors: Colors, props: Props, size: Size)
    ensures var u := CreateUniforms(colors, props, Some(size)).value;
            Rgb(u.color1.x, u.color1.y, u.color1.z) == colors.color1
            && Rgb(u.color2.x, u.color2.y, u.color2.z) == colors.color2
  {
  }

  /** With no props, an 800 by 600 container gets resolution 800 by 600, the centred pointer, time 0, sliders 0.25, 0.09 and 0.2, and anchors (640, -240) and (656, -300). */
  lemma DefaultUniforms(colors: Colors)
    ensures var u := CreateUniforms(colors, NoProps, Some(Size(800, 600))).value;
            u.resolution == Vec2(800.0, 600.0) && u.mouse == Centre && u.time == 0.0
            && u.intensity == 0.25 && u.rays == 0.09 && u.reach == 0.2
            && u.rayPos1 == Vec2(640.0, -240.0) && u.rayPos2 == Vec2(656.0, -300.0)
  {
  }

  /** The defaults apply only to absent props: an explicit 0 is kept and gives 0. */
  lemma ExplicitZeroKept(props: Props, size: Size, colors: Colors)
    requires props.intensity == Some(0.0) && props.rays == Some(0.0) && props.reach == Some(0.0)
    ensures var u := CreateUniforms(colors, props, Some(size)).value;
            u.intensity == 0.0 && u.rays == 0.0 && u.reach == 0.0
  {
  }

  /** Sliders set inside `[0, 100]` give uniforms inside `[0, 0.5]`, `[0, 0.3]` and `[0, 0.5]`. */
  lemma SlidersInRange(props: Props, size: Size, colors: Colors, i: real, r: real, c: real)
    requires props.intensity == Some(i) && props.rays == Some(r) && props.reach == Some(c)
    requires 0.0 <= i <= 100.0 && 0.0 <= r <= 100.0 && 0.0 <= c <= 100.0
    ensures var u := CreateUniforms(colors, props, Some(size)).value;
            0.0 <= u.intensity <= 0.5 && 0.0 <= u.rays <= 0.3 && 0.0 <= u.reach <= 0.5
  {
    KnobInRange(i, 50.0, 0.5);
    KnobInRange(r, 30.0, 0.3);
    KnobInRange(c, 40.0, 0.5);
  }

  // ---------------------------------------------------------------------
  // handleResize and handleMouseMove

  /** The uniform writes of `handleResize`: the resolution and both ray anchors for the new size. */
  function ResizeUniforms(u: Uniforms, position: Option<real>, width: nat, height: nat): (r: Uniforms)
    ensures r.resolution == Vec2(width as real, height as real)
    ensures r.(resolution := u.resolution, rayPos1 := u.rayPos1, rayPos2 := u.rayPos2) == u
  {
    u.(resolution := Vec2(width as real, height as real),
       rayPos1 := RayPos1(position, width, height),
       rayPos2 := RayPos2(position, width, height))
  }

  /**
   * Resizing uses the formulas of `createUniforms`: resizing any uniforms to
   * a size gives what creating them at that size gives, apart from the
   * fields a resize does not touch.
   */
  lemma ResizeAgreesWithCreate(u: Uniforms, colors: Colors, props: Props, width: nat, height: nat)
    ensures var created := CreateUniforms(colors, props, Some(Size(width, height))).value;
            var resized := ResizeUniforms(u, props.position, width, height);
            resized.resolution == created.resolution
            && resized.rayPos1 == created.rayPos1 && resized.rayPos2 == created.rayPos2
  {
  }

  /** Resizing to the size the uniforms were created at changes nothing. */
  lemma ResizeAfterCreate(colors: Colors, props: Props, size: Size)
    ensures var u := CreateUniforms(colors, props, Some(size)).value;
            ResizeUniforms(u, props.position, size.width, size.height) == u
  {
  }

  /** Resizing twice to the same size is resizing once. */
  lemma ResizeIdempotent(u: Uniforms, position: Option<real>, width: nat, height: nat)
    ensures var once := ResizeUniforms(u, position, width, height);
            ResizeUniforms(once, position, width, height) == once
  {
  }

  /** The last resize decides: an earlier one leaves no trace. */
  lemma ResizeLastWins(u: Uniforms, position: Option<real>, w1: nat, h1: nat, w2: nat, h2: nat)
    ensures ResizeUniforms(ResizeUniforms(u, position, w1, h1), position, w2, h2) == ResizeUniforms(u, position, w2, h2)
  {
  }

  /** `getBoundingClientRect()` of the container. */
  datatype Rect = Rect(left: real, top: real, width: real, height: real)

  /** The pointer in container coordinates: x from the left edge, y from the bottom edge, as fractions, unclamped. */
  function PointerAt(clientX: real, clientY: real, rect: Rect): (p: Pointer)
    ensures rect.width != 0.0 ==> p.x.Val? && p.x.v * rect.width == clientX - rect.left
    ensures rect.height != 0.0 ==> p.y.Val? && (1.0 - p.y.v) * rect.height == clientY - rect.top
  {
    Pointer(Quotient(clientX - rect.left, rect.width), SubFrom(1.0, Quotient(clientY - rect.top, rect.height)))
  }

  /** The uniform write of `handleMouseMove`: `u_mouse` becomes the pointer's container position, and nothing else changes. */
  function MouseUniforms(u: Uniforms, clientX: real, clientY: real, rect: Rect): (r: Uniforms)
    ensures r.mouse == PointerAt(clientX, clientY, rect)
    ensures r.(mouse := u.mouse) == u
  {
    u.(mouse := PointerAt(clientX, clientY, rect))
  }

  /** The top-left corner of a non-empty container is `(0, 1)`: y grows upwards. */
  lemma PointerTopLeft(rect: Rect)
    requires rect.width != 0.0 && rect.height != 0.0
    ensures PointerAt(rect.left, rect.top, rect) == Pointer(Val(0.0), Val(1.0))
  {
    assert Quotient(rect.left - rect.left, rect.width) == Val(0.0);
    assert Quotient(rect.top - rect.top, rect.height) == Val(0.0);
  }

  /** The bottom-right corner of a non-empty container is `(1, 0)`. */
  lemma PointerBottomRight(rect: Rect)
    requires rect.width != 0.0 && rect.height != 0.0
    ensures PointerAt(rect.left + rect.width, rect.top + rect.height, rect) == Pointer(Val(1.0), Val(0.0))
  {
    assert (rect.left + rect.width) - rect.left == rect.width;
    assert (rect.top + rect.height) - rect.top == rect.height;
    assert Quotient(rect.width, rect.width) == Val(1.0);
    assert Quotient(rect.height, rect.height) == Val(1.0);
  }

  /** Nothing is clamped: a pointer left of the container gives a negative x. */
  lemma PointerUnclamped(clientX: real, clientY: real, rect: Rect)
    requires rect.width > 0.0 && clientX < rect.left
    ensures PointerAt(clientX, clientY, rect).x.Val? && PointerAt(clientX, clientY, rect).x.v < 0.0
  {
    var x := PointerAt(clientX, clientY, rect).x.v;
    assert x * rect.width < 0.0;
  }

  /** The pointer uniform determines the pointer: two client positions with the same uniform are equal. */
  lemma PointerInjective(x1: real, y1: real, x2: real, y2: real, rect: Rect)
    requires rect.width != 0.0 && rect.height != 0.0
    requires PointerAt(x1, y1, rect) == PointerAt(x2, y2, rect)
    ensures x1 == x2 && y1 == y2
  {
  }

  /** An empty container divides by zero: the pointer's x is NaN or infinite. */
  lemma PointerZeroWidth(clientX: real, clientY: real, rect: Rect)
    requires rect.width == 0.0
    ensures var x := PointerAt(clientX, clientY, rect).x;
            (x == NaN <==> clientX == rect.left) && (x.Inf? <==> clientX != rect.left)
  {
  }
}
