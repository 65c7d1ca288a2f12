# godrays-vue, modelled in Dafny

godrays-vue is a Vue component that draws animated "god rays" (light shafts)
with a Three.js fragment shader. This project models the logic of that
component:

- `utils.ts`: `mapRange`, the unclamped affine remap of a slider value, and
  `colorToRGBA`, the colour-literal parser. The parser turns `#RGB`,
  `#RRGGBB`, `#RRGGBBAA`, `rgb(…)` and `rgba(…)` into four channels. On bad
  input it gives white, NaN or `undefined` and never fails.
- `src/useThreeSetup.ts`, in three parts:
  - the palette computed from the colour mode (`computeColors`);
  - the shader uniforms built from the props and the container size
    (`createUniforms`), and the two handlers that overwrite some of them
    (`handleResize`, `handleMouseMove`);
  - the render loop: the closure variables `isAnimating` and `frameId`, the
    Three.js objects, `animate`, `cleanup`, the `watch` on
    `props.animation.animate`, and the `onMounted` and `onBeforeUnmount` hooks.

The files:

- `js.dfy` (`Js`): the JavaScript values and built-ins the source relies on.
  - `Num` models a JavaScript number: a real, an infinity, NaN or `undefined`.
  - `??`, `/`, `Math.min`.
  - `startsWith`, `slice`, and `split` on one character, with `Join` as its
    inverse.
  - `parseInt`: white space, sign, radix and the `0x` prefix.
  - `parseFloat`: sign, `Infinity`, fraction and exponent.
  - Decimal and two-digit hexadecimal renderings, as partners for round trips.
- `utils.dfy` (`Utils`): `mapRange` and `colorToRGBA`, with their properties.
- `constants.dfy` (`Constants`): the two ray heights of `src/constants.ts`.
- `uniforms.dfy` (`Uniforms`): the props, `computeColors`, `createUniforms`,
  and the uniform writes of the two handlers, all as values.
- `lifecycle.dfy` (`Lifecycle`): the render loop as a state machine.
  - Each handler is a function from the old state to the new state.
  - `Deliver` is the host: Vue and the browser calling the handlers.
  - `Inv` is the invariant every event keeps.
  - The lemmas are about runs of events.
- `setup.dfy` (`ThreeSetup`): the same closure as a class, `GodRays`, whose
  fields the handlers update in place. The browser's frame scheduler is a
  class too, `FrameScheduler`. Each method of `GodRays` is proved to take the
  object from `old(State())` to the state its `Lifecycle` function gives, so
  every `Lifecycle` lemma holds of the object.

Three consequences of the code that a reader might not expect, each proved:

- Mounting ignores `animate: false`. `isAnimating` starts `true` whatever
  the props say, and the watcher runs only when the value changes. So when
  the container and the canvas exist, mounting draws once and schedules a
  frame even with `animate: false` (`Lifecycle.MountIgnoresAnimateFalse`).
  Without either of them, mounting creates and schedules nothing
  (`Lifecycle.MountWithoutScene`).
- Re-enabling never restarts a stopped loop. `frameId` is never reset to
  `null`, so once a frame has been requested the watcher never calls
  `animate()` again. A loop stopped by `animate: false` stays stopped
  (`Lifecycle.DisableStopsLoop`, `Lifecycle.ReenableDoesNotRestart`,
  `Lifecycle.RunDeadStaysDead`). The watcher does start a loop that has
  never requested a frame: with `animate: false` set before mounting, the
  first `animate()` does nothing and `frameId` stays `null`, so turning the
  animation on draws and requests frame 1
  (`Lifecycle.ReenableBeforeFirstFrame`).
- Reach 40, the default, gives `u_reach` 0.2: it is
  `mapRange(40, 0, 100, 0, 0.5)` (`Uniforms.DefaultUniforms`).

## Model

| member | source | states |
|---|---|---|
| Utils.MapRange | utils.ts:1-10 | `fromLow` maps to `toLow` and `fromHigh` maps to `toHigh` |
| Utils.MapRangeIdentity | utils.ts:8-9 | with the same range on both sides the remap is the identity |
| Utils.MapRangeAffine | utils.ts:8-9 | differences of results scale by the ratio of range widths, for every value, inside the range or not |
| Utils.MapRangeIncreasing | utils.ts:8-9 | with both ranges increasing the remap is strictly increasing |
| Utils.MapRangeUnclamped | utils.ts:1-10 | no clamping: a value past either end of the source range lands past that end of the target range |
| Utils.ColorToRGBA | utils.ts:12-50 | `undefined` and `""` give opaque white; a string starting with none of `rgb`, `#` gives white; red and alpha are never `undefined`; alpha is 1 unless the string starts with `rgba` or has nine characters |
| Utils.FromRgba | utils.ts:24-27 | the `rgba` branch never leaves red or alpha `undefined` |
| Utils.FromRgb | utils.ts:28-30 | the `rgb` branch keeps alpha at 1 and always sets red |
| Utils.FromHex | utils.ts:31-46 | hex lengths other than 3, 6 and 8 keep white; alpha changes only for 8 digits |
| Utils.DecimalChannel | utils.ts:26-30 | a part `parseInt` reads as a number n gives n/255; one it reads as NaN gives NaN |
| Utils.HexChannel | utils.ts:34-45 | digits `parseInt(…, 16)` reads as a number n give n/255; digits it reads as NaN give NaN |
| Utils.RgbaStartsRgb | utils.ts:24-28 | every `rgba` string also starts with `rgb`, so the branch order decides |
| Utils.RoutesToHex | utils.ts:31-32 | `#` + hex is read by the hex branch on exactly the text after `#` |
| Utils.RoutesToRgb | utils.ts:28-29 | `rgb(` + body + any last character is read by the `rgb` branch on body |
| Utils.RoutesToRgba | utils.ts:24-25 | `rgba(` + body + any last character is read by the `rgba` branch on body |
| Utils.HexOtherLengthIsWhite | utils.ts:31-47 | `#` with a hex part whose length is not 3, 6 or 8 gives white |
| Utils.FromShortHex | utils.ts:33-36 | three digits: each channel is `17*d/255`, NaN for a non-digit, alpha 1 |
| Utils.ShortHex | utils.ts:31-36 | `#RGB` gives `17*d/255` per channel, NaN for a non-digit, alpha 1 |
| Utils.ShortHexTop | utils.ts:33-36 | three copies of `f` or `F` give opaque white |
| Utils.ShortWhite | utils.ts:33-36 | `"#fff"` is (1,1,1,1) |
| Utils.PairChannel | utils.ts:38-45 | a pair of hex digits gives its byte divided by 255 |
| Utils.FromSixDigits | utils.ts:37-40 | six valid digits give three bytes over 255 and alpha 1 |
| Utils.FromEightDigits | utils.ts:41-45 | eight valid digits give four bytes over 255, the fourth as alpha |
| Utils.LongHex6 | utils.ts:37-40 | `#RRGGBB` with valid digits gives byte/255 channels and alpha 1 |
| Utils.LongHex8 | utils.ts:41-45 | `#RRGGBBAA` with valid digits gives byte/255 channels including alpha |
| Utils.LongHexInUnitRange | utils.ts:37-45 | valid six- and eight-digit colours have every channel in [0, 1] |
| Utils.Hex6RoundTrip | utils.ts:37-40 | `#` + three rendered bytes parses back to those bytes over 255 |
| Utils.Hex8RoundTrip | utils.ts:41-45 | `#` + four rendered bytes parses back to those bytes over 255, with the last as alpha |
| Utils.RgbParts | utils.ts:29-30 | the `rgb` body splits into its comma-free parts, one channel each |
| Utils.RgbaParts | utils.ts:25-27 | the `rgba` body: three channels over 255, alpha `parseFloat` of the fourth part |
| Utils.DecChannel | utils.ts:30 | a decimal part `n` gives channel `n/255` |
| Utils.RgbDecimal | utils.ts:28-30 | `rgb(r,g,b)` + any last character gives `r/255, g/255, b/255` and alpha 1 |
| Utils.RgbNotClamped | utils.ts:30 | a part above 255 gives a channel above 1 |
| Utils.RgbMissingParts | utils.ts:29-30 | for any comma-free parts, `rgb(p0)` leaves green and blue `undefined` and `rgb(p0,p1)` leaves blue `undefined`, not 1; the parts present give their channels and alpha stays 1 |
| Utils.RgbOneDecimal | utils.ts:29-30 | `rgb(r)` for a decimal `r` gives `r/255` and `undefined` green and blue |
| Utils.RgbUnparsablePart | utils.ts:28-30 | in `rgb(p0,p1,p2)`, every part that `parseInt` reads as NaN gives NaN for its channel, whatever the other parts hold; alpha stays 1 |
| Utils.RgbLetterPart | utils.ts:28-30 | `rgb(x)` gives a NaN red and leaves green and blue `undefined` |
| Utils.RgbaDecimal | utils.ts:24-27 | `rgba(r,g,b,x)`: colour channels over 255, alpha is `parseFloat(x)`, not divided |
| Utils.RgbaMissingAlpha | utils.ts:25-27 | `rgba(r,g,b)` without a fourth part has alpha NaN |
| Utils.ParseFloatUndefined | utils.ts:27 | `parseFloat(undefined)` is NaN |
| Utils.ParseFloatLetter | utils.ts:27 | text led by a lower-case letter is NaN to `parseFloat` |
| Utils.ParseFloatUnsigned | utils.ts:27 | text led by a digit or a point is read as an unsigned decimal |
| Utils.ParseFloatHalf | utils.ts:27 | `parseFloat("0.5")` is one half |
| Utils.RgbaHalfAlpha | utils.ts:24-27 | `rgba(255,0,0,0.5)`-style input gives alpha 0.5 |
| Js.DivBy | utils.ts:26 | division by a positive constant: a number gives the number that times the constant is the dividend, an infinity stays, NaN and `undefined` give NaN |
| Js.Min | src/useThreeSetup.ts:198 | `Math.min` gives the smaller argument, or NaN if either is not a number |
| Js.Quotient | src/useThreeSetup.ts:165-166 | division by a non-zero number inverts multiplication; `0/0` is NaN, otherwise a zero divisor gives a signed infinity |
| Js.SubFrom | src/useThreeSetup.ts:166 | `1 - x` negates the sign of an infinity and keeps NaN |
| Js.SliceIndex | utils.ts:25 | an index inside the string is kept, a negative one counts from the end, one past the end gives the length, one before the start gives 0 |
| Js.Slice | utils.ts:25 | `slice(start, end)` with indices inside the string is `s[start..end]`; with a negative end it stops that many characters before the end, as `slice(5, -1)` does; a start past the end or crossing indices give `""` |
| Js.SliceFrom | utils.ts:32 | `slice(1)` drops the first character |
| Js.StartsWith | utils.ts:24-31 | `startsWith(p)` holds exactly when the string is `p` followed by some rest |
| Js.Split | utils.ts:25 | `split` gives at least one part and no part holds the separator |
| Js.JoinSplit | utils.ts:25 | joining the parts of a split gives the string back |
| Js.SplitJoin | utils.ts:29 | splitting a join of separator-free parts gives the parts back |
| Js.SplitCons | utils.ts:29 | a separator-free head part is split off whole |
| Js.SplitNone | utils.ts:29 | a string without the separator is one part |
| Js.TrimStart | utils.ts:26 | leading white space is gone from the result |
| Js.TrimStartSuffix | utils.ts:26 | what `parseInt` keeps is a suffix, and all it dropped is white space |
| Js.ParseInt | utils.ts:26 | `parseInt` gives a number or NaN; radix 1 and radixes above 36 give NaN |
| Js.ReadDigits | utils.ts:38 | NaN exactly when no digit leads the text |
| Js.ParseIntDec | utils.ts:26 | `parseInt` inverts the decimal rendering |
| Js.ParseIntHex2 | utils.ts:38 | `parseInt(…, 16)` inverts the two-digit hex rendering |
| Js.ParseHexPair | utils.ts:38-45 | two hex digits parse to the byte they spell, in [0, 255] |
| Js.ParseHexDoubled | utils.ts:34-36 | a doubled character parses to `17*d`, or NaN if it is not a hex digit |
| Js.ParseIntSkipsSpace | utils.ts:30 | leading white space does not change `parseInt` |
| Js.ParseIntStopsAtNonDigit | utils.ts:38 | a digit followed by a non-digit reads as the digit alone, as `"1g"` gives 1 |
| Js.ParseIntNoDigit | utils.ts:30 | text led by a non-digit is NaN, as `"gg"` in radix 16 |
| Js.ParseFloat | utils.ts:27 | `parseFloat` gives a number, an infinity or NaN, never `undefined` |
| Js.ParseUnsignedDecimal | utils.ts:27 | NaN exactly when neither a digit nor a point followed by a digit leads the text |
| Js.ParseFloatNoNumber | utils.ts:27 | text led by anything that cannot begin a number is NaN |
| Js.DigitsValueSnoc | utils.ts:26 | one more digit multiplies the value by the radix and adds the digit |
| Js.DecValue | utils.ts:26 | the decimal rendering reads back to the number |
| Js.DigitRunConcat | utils.ts:26 | a run of digits stops at the first non-digit |
| Uniforms.ComputeColors | src/useThreeSetup.ts:171-213 | no `raysColor` or an unknown mode gives the default palette; opacity and red never `undefined` |
| Uniforms.SingleSameColor | src/useThreeSetup.ts:183-190 | `single`: both colours are the parsed colour, opacity its alpha |
| Uniforms.SingleWithoutColor | src/useThreeSetup.ts:183-190 | `single` without a colour gives white, not the default palette |
| Uniforms.MultiOpacity | src/useThreeSetup.ts:192-200 | `multi`: one parsed colour each; opacity is the smaller alpha, NaN if either alpha is NaN |
| Uniforms.RandomInUnit | src/useThreeSetup.ts:202-207 | `random`: six channels in [0, 1) and opacity 1 |
| Uniforms.DrawsOnlyForRandom | src/useThreeSetup.ts:171-213 | only the `random` mode depends on `Math.random` |
| Uniforms.Knob | src/useThreeSetup.ts:88-90 | an explicit 0 gives 0 and 100 gives the scale |
| Uniforms.KnobInRange | src/useThreeSetup.ts:88-90 | a slider in [0, 100] gives a uniform in [0, scale] |
| Uniforms.AnchorFraction | src/useThreeSetup.ts:93 | the anchor fraction is `position/100`, 0.8 by default |
| Uniforms.RayPos1 | src/useThreeSetup.ts:91-97 | first anchor: x times 100 is `position * width`, with `position` 80 when absent (so `0.8 * width`); y is `-0.4 * height` |
| Uniforms.RayPos2 | src/useThreeSetup.ts:98-104 | second anchor: 0.02 of the width right of the first, `-0.5 * height` |
| Uniforms.SecondRayHigher | src/constants.ts:1-4 | the second anchor is a tenth of the height above the first |
| Uniforms.CreateUniforms | src/useThreeSetup.ts:66-106 | no container, no uniforms; otherwise the resolution is the container size, the pointer is centred, time is 0, colour alphas are 1, the sliders are `mapRange` of the prop or its default (50, 30, 40) onto 0.5, 0.3 and 0.5, and the anchors are `RayPos1`/`RayPos2` |
| Uniforms.OpacityUnused | src/useThreeSetup.ts:82-87 | the computed opacity reaches no uniform |
| Uniforms.UniformColours | src/useThreeSetup.ts:82-87 | the colour uniforms carry the palette's channels |
| Uniforms.DefaultUniforms | src/useThreeSetup.ts:73-105 | no props on 800×600: 0.25, 0.09, 0.2, anchors (640,-240) and (656,-300), pointer centred, time 0 |
| Uniforms.ExplicitZeroKept | src/useThreeSetup.ts:88-90 | `??` keeps an explicit 0 |
| Uniforms.SlidersInRange | src/useThreeSetup.ts:88-90 | sliders in [0, 100] give [0,0.5], [0,0.3], [0,0.5] |
| Uniforms.ResizeUniforms | src/useThreeSetup.ts:148-158 | sets the resolution and changes nothing but it and the anchors |
| Uniforms.ResizeAgreesWithCreate | src/useThreeSetup.ts:149-157 | resize writes what `createUniforms` computes for that size |
| Uniforms.ResizeAfterCreate | src/useThreeSetup.ts:136-159 | resizing to the creation size changes nothing |
| Uniforms.ResizeIdempotent | src/useThreeSetup.ts:136-159 | resizing twice to one size is resizing once |
| Uniforms.ResizeLastWins | src/useThreeSetup.ts:149-157 | the last resize decides |
| Uniforms.PointerAt | src/useThreeSetup.ts:164-166 | x from the left edge and y from the bottom, as fractions of the box |
| Uniforms.MouseUniforms | src/useThreeSetup.ts:164-168 | `u_mouse` becomes `PointerAt` of the client position and the box, and nothing else changes |
| Uniforms.PointerTopLeft | src/useThreeSetup.ts:165-166 | the top-left corner gives (0, 1) |
| Uniforms.PointerBottomRight | src/useThreeSetup.ts:165-166 | the bottom-right corner gives (1, 0) |
| Uniforms.PointerUnclamped | src/useThreeSetup.ts:165 | a pointer left of the box gives a negative x |
| Uniforms.PointerInjective | src/useThreeSetup.ts:165-166 | the uniform determines the client position |
| Uniforms.PointerZeroWidth | src/useThreeSetup.ts:165 | a zero-width box gives NaN or an infinity |
| Lifecycle.Init | src/useThreeSetup.ts:11-16 | `isAnimating` starts true; nothing is created or scheduled |
| Lifecycle.Speed | src/useThreeSetup.ts:113 | the given `animation.speed`, or 10 without `animation` |
| Lifecycle.TickTime | src/useThreeSetup.ts:112-113 | `u_time` times 10000 is the clock in milliseconds times the speed, so speed 20 runs twice as fast as the default 10, at which `u_time` is the clock in seconds |
| Lifecycle.TickTimeMonotone | src/useThreeSetup.ts:112-115 | a clock that does not go back and a speed of at least 0 keep `u_time` from going back |
| Lifecycle.SetupScene | src/useThreeSetup.ts:18-64 | nothing is created without a container or canvas; otherwise only the resources change, sized to the container, with nothing drawn or disposed, and the material's uniforms are `CreateUniforms` of the props, the container and the palette `ComputeColors` gives for the draws |
| Lifecycle.Animate | src/useThreeSetup.ts:108-119 | does nothing unless animating with the scene created; otherwise sets `u_time` from the clock and keeps every other uniform, draws once, and requests the next frame, whose id becomes `frameId` and is pending; nothing else changes |
| Lifecycle.AnimateActs | src/useThreeSetup.ts:109-118 | `animate()` changes the state if and only if it is animating and the scene exists |
| Lifecycle.Cleanup | src/useThreeSetup.ts:121-134 | cancels the frame in `frameId` and disposes of what exists |
| Lifecycle.CleanupWhenNothingCreated | src/useThreeSetup.ts:121-134 | cleanup with nothing created or scheduled changes nothing |
| Lifecycle.HandleResize | src/useThreeSetup.ts:136-159 | no-op without container or scene; otherwise the resolution becomes the container size and the anchors `RayPos1`/`RayPos2` for it, every other uniform is kept, the drawing size follows the container, and the render count and disposed flag stay; nothing outside the resources changes |
| Lifecycle.HandleMouseMove | src/useThreeSetup.ts:161-169 | no-op without scene or container; otherwise `u_mouse` becomes `PointerAt` of the event and the box, and nothing else changes |
| Lifecycle.OnAnimateChanged | src/useThreeSetup.ts:230-238 | `isAnimating` becomes `v ?? true`; nothing else happens unless `v` is true and `frameId` is null, and then the new state is `Animate` of the state with `isAnimating` set |
| Lifecycle.OnMounted | src/useThreeSetup.ts:215-221 | after mounting the resize listener is on, and the mouse listener is on exactly when the container exists |
| Lifecycle.OnBeforeUnmount | src/useThreeSetup.ts:223-227 | after unmounting both listeners are off |
| Lifecycle.Deliver | src/useThreeSetup.ts:215-238 | mounting happens once and unmounting only when mounted; only pending frames fire; the watcher does nothing but store the props when the watched value is unchanged or after unmounting; a mouse move without the listener changes nothing, and with it sets `u_mouse` to `PointerAt` of the event |
| Lifecycle.InitInv | src/useThreeSetup.ts:11-16 | the initial state satisfies the invariant |
| Lifecycle.DeliverInv | src/useThreeSetup.ts:215-238 | every event keeps the invariant |
| Lifecycle.RunInv | src/useThreeSetup.ts:215-238 | every run of events keeps the invariant |
| Lifecycle.AtMostOnePending | src/useThreeSetup.ts:118-123 | at most one frame is ever pending |
| Lifecycle.CleanupCancels | src/useThreeSetup.ts:121-124 | cleanup leaves no frame pending |
| Lifecycle.DeliverKeepsFrameId | src/useThreeSetup.ts:108-134 | once set, `frameId` is never null again |
| Lifecycle.RunKeepsFrameId | src/useThreeSetup.ts:108-134 | the same over any run of events |
| Lifecycle.DeadStaysDead | src/useThreeSetup.ts:230-238 | a stopped loop stays stopped and draws nothing, whatever the event |
| Lifecycle.RunDeadStaysDead | src/useThreeSetup.ts:230-238 | the same over any run of events |
| Lifecycle.DisableStopsLoop | src/useThreeSetup.ts:108-119 | `animate: false` lets the pending frame fire without drawing and stops the loop |
| Lifecycle.ReenableDoesNotRestart | src/useThreeSetup.ts:233-236 | `animate: true` after a stop sets `isAnimating` but schedules and draws nothing |
| Lifecycle.ReenableBeforeFirstFrame | src/useThreeSetup.ts:233-236 | `animate: false` before mounting leaves a scene with no frame requested and nothing drawn, a loop that is not dead; `animate: true` then draws once, sets `u_time` and requests frame 1 |
| Lifecycle.NothingAfterUnmount | src/useThreeSetup.ts:223-227 | after unmounting no event changes the resources |
| Lifecycle.MountIgnoresAnimateFalse | src/useThreeSetup.ts:215-217 | mounting with `animate: false` still draws once and schedules frame 1 |
| Lifecycle.MountWithoutScene | src/useThreeSetup.ts:18-19 | mounting without a container or canvas creates and schedules nothing |
| Lifecycle.MountUniforms | src/useThreeSetup.ts:46-62 | after mounting, the material's uniforms are those `createUniforms` builds, with `u_time` set by the first frame and the pointer centred |
| Lifecycle.FrameTick | src/useThreeSetup.ts:108-119 | a drawing frame sets `u_time` from the clock, draws once and schedules exactly one next frame |
| Lifecycle.ColoursFixed | src/useThreeSetup.ts:46-55 | no event after setup changes the colours, so `random` draws once |
| Lifecycle.ResizeMatchesCreate | src/useThreeSetup.ts:136-159 | after a resize, resolution and anchors are those `createUniforms` gives for the new size |
| ThreeSetup.FrameScheduler.constructor | src/useThreeSetup.ts:118 | no frame is pending and ids start at 1 |
| ThreeSetup.FrameScheduler.Request | src/useThreeSetup.ts:118 | `requestAnimationFrame` returns a fresh id, now pending |
| ThreeSetup.FrameScheduler.Cancel | src/useThreeSetup.ts:122-124 | `cancelAnimationFrame` removes the id from the pending frames |
| ThreeSetup.FrameScheduler.Fire | src/useThreeSetup.ts:118 | a fired frame is no longer pending |
| ThreeSetup.GodRays.constructor | src/useThreeSetup.ts:7-16 | the object starts in `Lifecycle.Init` with a fresh scheduler |
| ThreeSetup.GodRays.SetupScene | src/useThreeSetup.ts:18-64 | the new state is `Lifecycle.SetupScene` of the old |
| ThreeSetup.GodRays.Animate | src/useThreeSetup.ts:108-119 | the new state is `Lifecycle.Animate` of the old |
| ThreeSetup.GodRays.Cleanup | src/useThreeSetup.ts:121-134 | the new state is `Lifecycle.Cleanup` of the old |
| ThreeSetup.GodRays.HandleResize | src/useThreeSetup.ts:136-159 | the new state is `Lifecycle.HandleResize` of the old |
| ThreeSetup.GodRays.HandleMouseMove | src/useThreeSetup.ts:161-169 | the new state is `Lifecycle.HandleMouseMove` of the old |
| ThreeSetup.GodRays.OnAnimateChanged | src/useThreeSetup.ts:230-238 | the new state is `Lifecycle.OnAnimateChanged` of the old |
| ThreeSetup.GodRays.OnMounted | src/useThreeSetup.ts:215-221 | the new state is `Lifecycle.OnMounted` of the old |
| ThreeSetup.GodRays.OnBeforeUnmount | src/useThreeSetup.ts:223-227 | the new state is `Lifecycle.OnBeforeUnmount` of the old |
| ThreeSetup.GodRays.Deliver | src/useThreeSetup.ts:215-238 | the new state is `Lifecycle.Deliver` of the old |
| ThreeSetup.GodRays.Run | src/useThreeSetup.ts:215-238 | a run of events ends in `Lifecycle.Run` of the old state and keeps the invariant |

## Left out

- Utils.MapRange: requires `fromHigh != fromLow`. The source divides by zero there, and JavaScript would give NaN or an infinity. Every call in the source uses the range 0 to 100.
- Utils.ColorToRGBA: does not model the `typeof color !== "string"` guard. The argument is a string or `undefined` (`Option<string>`), so a non-string value cannot reach it.
- Js.ParseInt, Js.ParseFloat: real arithmetic. Large integers lose no precision and decimals are not rounded to IEEE-754 doubles.
- Js.ParseFloat: does not model negative zero, or a literal too large for a double turning into an infinity. `-0` reads as 0, and every finite literal reads as its exact value.
- Js.ParseIntStopsAtNonDigit, Js.ParseIntDec, Js.ParseIntHex2, Js.ParseHexPair: these are stated for the radixes the source uses: radix 16 for hex digits, the default radix for decimal parts. `Js.ParseInt` itself handles every radix.
- IEEE-754 rounding throughout. For example, `30 / 100 * 0.3` is exactly 0.09 here.
- Strings are sequences of characters. UTF-16 surrogate pairs are not modelled.
- Three.js is not modelled. The renderer, scene, camera, geometry, material and mesh are one value, `Lifecycle.Resources`: the camera aspect, the drawing size, the uniforms, a count of rendered frames, and a disposed flag. `setPixelRatio`, `updateProjectionMatrix`, shader compilation and GPU work are left out. So is `scene.add`.
- `new THREE.Vector4(...color, 1)`: a channel that is `undefined` is kept as `undefined` in the uniform. The model does not say what three.js substitutes for it.
- The three.js objects are a value record, not shared references. Nothing else in the source holds them, so no aliasing is lost.
- Host services become inputs:
  - `Math.random` is the six draws of a `Draws` value, given to `Mount`.
  - `performance.now` is the `now` argument of the events.
  - `getBoundingClientRect` is a `Rect` argument.
  - `requestAnimationFrame` and `cancelAnimationFrame` are the `FrameScheduler` class.
  - `window.devicePixelRatio` is not modelled.
- Vue's reactivity is reduced to what the core observes:
  - The watcher runs once per change of `props.animation?.animate`, immediately, and not after unmount.
  - Batching and flush timing are not modelled.
  - The container and canvas refs are present or absent when mounting.
- Window resizes are seen as the container's new size. The browser's layout is not modelled.
- Props the core does not read (`backgroundColor`, `radius`, `style`) are not part of `Props`.
- Two guards in the source cannot fail once `setupScene` has passed its own check, so they are not modelled separately: the container checks in `createShaderMaterial` and `createUniforms`, and `if (material.uniforms)` in `handleResize`.
- The GLSL shaders imported by `src/constants.ts`, the build configuration in `vite.config.ts`, and the plugin registration in `src/index.ts` are not part of this model. `types.ts` gives only the shape of the props.
