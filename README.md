# TextureResize, modelled in Dafny

`TextureResize` (anbox, `src/anbox/graphics/emugl/TextureResize.cpp`) shrinks
a rendered frame before it is shown in a smaller window. It picks a
power-of-two factor from 1 to 16 for the viewport and renders in two passes.
The first pass renders the frame into a texture that is `factor` times
narrower (the width stage). The second renders that texture into one that
is `factor` times shorter as well (the height stage). Each stage's fragment
shader averages `factor` samples along its own axis. The count comes from
the fragment shader's nested `#if FACTOR > 2 / 4 / 8` blocks, whose FACTOR
value is set by a generated `#define FACTOR n` line. The stage textures and
shaders are rebuilt only when the factor changes.

The project has four modules:

- `Factor` (`factor.dfy`) is the factor selection of `update`: the
  rotation correction and the halving loop (`SelectFactor`). It is
  specified by a reference definition, `BestFactor`: the largest factor
  that still covers the target.
- `Shaders` (`shaders.dfy`) holds the shader text as the list of strings
  handed to `glShaderSource`. It has the decimal formatting of the
  generated lines with its round trip. It also models what the
  preprocessor keeps of the `#if FACTOR` nesting: which varyings are
  declared, assigned and read, and at which texel offsets.
- `Gl` (`gl.dfy`) is an abstract OpenGL ES 2.0 context (class `Context`).
  Its methods stand for the GL calls the resizer makes. `GetLocation`
  stands for both `glGetAttribLocation` and `glGetUniformLocation`, and
  `UseVertexAttrib` for both `glEnableVertexAttribArray` and
  `glVertexAttribPointer`. `glActiveTexture`, `glUniform1i` and
  `glBufferData` have no method (see "Left out"). It covers the GL state the
  resizer depends on: bindings, texture filters and sizes, framebuffer
  attachments, shader and program objects with their attachment slots and
  link state, the current program, the viewport, the list of draws, and the
  sticky error flag that `glGetError` reads and clears.
- `Resize` (`resize.dfy`) holds the static helpers `detachShaders`,
  `createShader` and `attachShaders`, and the class `TextureResize`: its
  constructor, `update`, `setupFramebuffers` and `resize`. Each class
  method hands over to a module-level method that works on the two stage
  values (`Present`, `SetupStages`, `ResizePasses`). These are split into
  the steps of the source function, so that each proof stays small.

The driver's verdicts are parameters of the context: two functions passed to
`Gl.Context`'s constructor. `compiles` says whether a shader source
compiles. `links` says whether a compiled vertex source and a compiled
fragment source link. Everything that depends on the driver is stated in
terms of these two functions. A GL error is raised only where the
resizer's calls can raise one in this model:

- `glUseProgram` on a program that is not linked;
- a location lookup on a program that is not linked;
- a vertex attribute index of -1;
- a draw into an incomplete framebuffer;
- `glFramebufferTexture2D` while framebuffer 0 is bound;
- a negative size;
- attaching a shader to a slot that is already occupied;
- names that do not exist.

Two consequences of the code that the model makes explicit:

- **Pass 2 samples the width stage's texture with nearest filtering.** The
  constructor sets both its filters to `GL_NEAREST`
  (TextureResize.cpp:194-195), and `resize` leaves them alone.
  `StagesValid` keeps this as an invariant.
- **A failed compile on a factor change keeps the old shaders.**
  `setupFramebuffers` detaches and deletes the old shaders before it
  compiles the new ones (TextureResize.cpp:294-304). Detaching does not
  unlink, so when the shaders for the new factor fail to compile, the
  program keeps its last successful link. It then renders with the old
  factor's shaders into textures sized for the new factor. No GL error
  arises, and `update` returns `mFBHeight.texture`. The `else` branch of
  `Rebuilt` states this: the link state is as it was.
  - `update` returns its input only when a stage is not ready (`Faults`).
    That has three causes. The stage's program may never have linked. Its
    new shaders may compile but fail to link (`FailedLinkNotReady`). Or its
    framebuffer may be incomplete because the stage texture has a zero
    size: a 10x10 source in a 0x0 viewport selects factor 16, which gives
    0x0 stage textures.

## Model

| member | source | states |
|---|---|---|
| Factor.Target | src/anbox/graphics/emugl/TextureResize.cpp:238-242 | the target is the viewport's two sizes in some order; they are swapped exactly when the source and viewport orientations differ (and the viewport is not square); a non-square target then has the source's orientation |
| Factor.Pow2IsFactor | src/anbox/graphics/emugl/TextureResize.cpp:246-249 | up to MAX_FACTOR_POWER (4) doublings of 1 give a factor in {1, 2, 4, 8, 16}, and 16 is reached exactly after four |
| Factor.HalveQuotient | src/anbox/graphics/emugl/TextureResize.cpp:247-249 | halving `width / d` gives `width / (2 * d)`, so after the loop's `w /= 2` the variable equals the source width divided by twice the factor |
| Factor.DivAntitone | src/anbox/graphics/emugl/TextureResize.cpp:248 | a larger divisor never gives a larger quotient, the monotonicity behind the loop's test |
| Factor.CoversDownward | src/anbox/graphics/emugl/TextureResize.cpp:248 | a factor whose shrunk size covers the target makes every smaller factor cover it too |
| Factor.BestFactorIsLargest | src/anbox/graphics/emugl/TextureResize.cpp:244-250 | a factor from 2 to 16 is at most the reference factor if and only if it covers the target (both directions) |
| Factor.BestFactorUnique | src/anbox/graphics/emugl/TextureResize.cpp:244-250 | a factor that covers the target (or is 1) while its double does not (or it is 16) is the reference factor |
| Factor.SelectFactor | src/anbox/graphics/emugl/TextureResize.cpp:238-250 | the swap and the halving loop give the reference factor of the rotation-corrected target; this factor covers the target, and one more halving would not |
| Factor.HalfSizeViewport | src/anbox/graphics/emugl/TextureResize.cpp:244-250 | a 1920x1080 source in a 960x540 viewport is shrunk by 2 |
| Factor.FullSizeViewport | src/anbox/graphics/emugl/TextureResize.cpp:252-255 | a viewport as large as the source gives factor 1, so nothing is resized |
| Factor.RotatedViewport | src/anbox/graphics/emugl/TextureResize.cpp:238-242 | a portrait 540x960 viewport is compared with a landscape 1920x1080 source as 960x540, giving factor 2 |
| Shaders.Decimal | src/anbox/graphics/emugl/TextureResize.cpp:299-300 | the number written into the factor define is a non-empty run of digits with no leading zero |
| Shaders.DecimalRoundTrip | src/anbox/graphics/emugl/TextureResize.cpp:299-300 | reading the decimal text of `n` back gives `n` |
| Shaders.FactorDefineRoundTrip | src/anbox/graphics/emugl/TextureResize.cpp:299-300 | the preprocessor reads the line `#define FACTOR <factor>` back as `factor` |
| Shaders.GeneratedLinesDiffer | src/anbox/graphics/emugl/TextureResize.cpp:164-173 | neither the factor define nor the kDimension line can be mistaken for `#define HORIZONTAL`, so only the width stage defines HORIZONTAL |
| Shaders.LadderExpand | src/anbox/graphics/emugl/TextureResize.cpp:28-39 | the nested `#if FACTOR > 2 / 4 / 8` blocks keep the first group, plus each deeper group exactly while FACTOR exceeds its bound |
| Shaders.UnrolledCount | src/anbox/graphics/emugl/TextureResize.cpp:28-118 | the declarations, both assignment branches and the reads all unroll to the same number of samples for every factor |
| Shaders.SampleCountMatchesDivisor | src/anbox/graphics/emugl/TextureResize.cpp:107-119 | the unrolled sum has exactly FACTOR terms, matching `sum /= float(FACTOR)`, if and only if FACTOR is 2, 4, 8 or 16 |
| Shaders.UnrolledSamples | src/anbox/graphics/emugl/TextureResize.cpp:28-118 | for those factors the shaders declare, assign and read exactly varyings 0 .. FACTOR-1, and varying i is i texels from the first along the stage's axis |
| Shaders.StageShaders | src/anbox/graphics/emugl/TextureResize.cpp:161-173 | both shaders attachShaders builds for a stage see FACTOR == factor; the vertex shader samples `factor` texels along the stage's own axis; the fragment shader reads each once and divides by factor |
| Resize.DetachShaders | src/anbox/graphics/emugl/TextureResize.cpp:128-138 | when glGetError reports no error, the program's two slots end up empty and each listed shader that no other program still holds is deleted; otherwise nothing changes; the error flag is cleared either way |
| Resize.DetachOne | src/anbox/graphics/emugl/TextureResize.cpp:133-136 | one round of the loop keeps its invariant: slots cleared and orphans deleted for one more listed shader |
| Resize.CreateShader | src/anbox/graphics/emugl/TextureResize.cpp:140-159 | the result is non-zero exactly when the driver compiles the source; it is then a new, unattached shader holding the source, and otherwise no shader is left behind |
| Resize.AttachShaders | src/anbox/graphics/emugl/TextureResize.cpp:161-186 | when either shader fails to compile, the stage, the program's slots, the link state and the current program are unchanged; for an empty program with both compiling, a successful link makes the program run exactly these sources, makes it current and finds both locations; a failed link leaves it without an executable and the current program unchanged, with both locations -1 and the error flag raised |
| Resize.LinkStage | src/anbox/graphics/emugl/TextureResize.cpp:179-185 | an empty program given two compiled shaders that link is linked to their sources, made current, and has valid locations; if they do not link it has no executable, the current program is unchanged, it gets locations -1 and the error flag is raised; other programs are untouched |
| Resize.AttachPair | src/anbox/graphics/emugl/TextureResize.cpp:179-180 | both shaders fill an empty program's two slots without error; other programs are untouched |
| Resize.LinkAndLocate | src/anbox/graphics/emugl/TextureResize.cpp:181-185 | a program the driver links runs its shaders, is current and answers both location lookups with 0; one it does not link has no executable, leaves the current program unchanged, answers -1 and raises an error |
| Resize.BuildStage | src/anbox/graphics/emugl/TextureResize.cpp:301-304 | attachShaders for one stage with the factor and axis defines: on an empty program the stage is Rebuilt, and the error flag gains exactly a link failure; programs other than the stage's keep their slots and link state |
| Resize.FailedLinkNotReady | src/anbox/graphics/emugl/TextureResize.cpp:181-185 | a stage whose new shaders compile but do not link is not ready, so the passes fault and update returns its input |
| Resize.SizeStage | src/anbox/graphics/emugl/TextureResize.cpp:280-285 | the stage texture gets the new size and becomes its framebuffer's colour attachment; nothing else about textures changes |
| Resize.SizeStages | src/anbox/graphics/emugl/TextureResize.cpp:279-292 | the width-stage texture is (width/factor) x height and the height-stage texture is (width/factor) x (height/factor), each attached to its framebuffer |
| Resize.RebuildPrograms | src/anbox/graphics/emugl/TextureResize.cpp:294-304 | with no error pending, both programs are emptied and rebuilt for the new factor (see Rebuilt), and the error flag is raised exactly when a stage's shaders compile but do not link |
| Resize.LinkStages | src/anbox/graphics/emugl/TextureResize.cpp:298-304 | for two programs that start empty: the width stage gets the HORIZONTAL shaders and the height stage the VERTICAL ones for the factor, each stage is Rebuilt, and the error flag gains exactly the link failures; building one stage does not disturb the other's link state |
| Resize.Reconfigure | src/anbox/graphics/emugl/TextureResize.cpp:279-306 | after a factor change the invariant holds for the new factor (sizes and attachments); every texture and colour attachment outside the two stages is as it was; with no error pending, each stage is Rebuilt and the error flag is raised exactly by a link failure |
| Resize.SetupStages | src/anbox/graphics/emugl/TextureResize.cpp:273-307 | an unchanged factor changes nothing at all; a new one resizes both stages and keeps the invariant for the new factor, leaving every texture and colour attachment outside the two stages as it was; with no error pending, it rebuilds both programs and raises the error flag exactly on a link failure |
| Resize.BeginPass | src/anbox/graphics/emugl/TextureResize.cpp:315-320 | the stage's framebuffer is bound, the viewport set, its program made current if it is linked; the error flag records an unlinked program or an invalid attribute |
| Resize.DrawNearest | src/anbox/graphics/emugl/TextureResize.cpp:321-337 | the input texture is drawn with nearest filtering once, and its own filters are as they were afterwards |
| Resize.DrawTexture | src/anbox/graphics/emugl/TextureResize.cpp:346-349 | the width stage's texture is drawn with its own filters, unchanged |
| Resize.FirstPass | src/anbox/graphics/emugl/TextureResize.cpp:315-337 | pass 1 draws the input into the width stage at (width/factor) x height when its framebuffer is complete, and raises an error unless the stage is ready |
| Resize.SecondPass | src/anbox/graphics/emugl/TextureResize.cpp:340-349 | pass 2 draws the width stage's texture into the height stage at (width/factor) x (height/factor) when its framebuffer is complete, and raises an error unless the stage is ready |
| Resize.ClearBindings | src/anbox/graphics/emugl/TextureResize.cpp:351-354 | no array buffer, framebuffer or texture is bound afterwards |
| Resize.RunPasses | src/anbox/graphics/emugl/TextureResize.cpp:309-355 | the draws are exactly PassDraws; the error flag records a stage that was not ready; the input texture's filters are unchanged; the bindings end cleared |
| Resize.ReadyPassDraws | src/anbox/graphics/emugl/TextureResize.cpp:309-355 | when both stages are ready, exactly the two passes render, each with its own program |
| Resize.IncompletePassDraws | src/anbox/graphics/emugl/TextureResize.cpp:309-355 | when neither stage framebuffer is complete, nothing renders |
| Resize.ResizePasses | src/anbox/graphics/emugl/TextureResize.cpp:309-355 | resize keeps the invariant, leaves the viewport at the height stage's size, changes no texture's state (it only creates an input texture it has not seen), and draws PassDraws, which are the two passes when both stages are ready |
| Resize.NewTexture | src/anbox/graphics/emugl/TextureResize.cpp:192-195 | a new texture name, bound, with both filters set to the given one |
| Resize.NewTextures | src/anbox/graphics/emugl/TextureResize.cpp:192-204 | two new distinct textures: nearest-filtered for the width stage, linear-filtered for the height stage |
| Resize.NewPrograms | src/anbox/graphics/emugl/TextureResize.cpp:209-210 | two new distinct programs with no shaders and no link |
| Resize.AllocateStages | src/anbox/graphics/emugl/TextureResize.cpp:192-213 | the constructor's objects are new, distinct and valid; the programs are empty and unlinked; the locations are -1; the vertex buffer is bound |
| Resize.KeptTexture | src/anbox/graphics/emugl/TextureResize.cpp:325-337 | when the textures outside the two stages are kept as a whole, any single texture outside them, such as the input whose filters resize saves and restores, keeps its size and filters |
| Resize.Present | src/anbox/graphics/emugl/TextureResize.cpp:231-271 | with factor 1 the input comes back and nothing changes; otherwise the new factor is the selected one, the viewport comes back restored, and the result is the height stage's texture, or the input when a stage was not ready; the two pass draws cover the right sizes; every texture other than the stages' (the input among them) and every colour attachment other than theirs is as it was |
| Resize.Rescale | src/anbox/graphics/emugl/TextureResize.cpp:257-270 | errors are cleared, then the stages are set up, both passes run and the viewport is restored; the result is the input exactly when the passes faulted; the error flag ends clear; textures and colour attachments outside the two stages are as they were |
| Resize.Render | src/anbox/graphics/emugl/TextureResize.cpp:258-259 | with no error pending, setup and both passes leave the error flag raised exactly when a stage was not ready, and textures and colour attachments outside the two stages as they were |
| Resize.Restore | src/anbox/graphics/emugl/TextureResize.cpp:260-264 | the saved viewport is set back; the error flag is read and cleared |
| Resize.TextureResize.constructor | src/anbox/graphics/emugl/TextureResize.cpp:188-216 | both stages are allocated and valid, the programs are empty, and mFactor is 1 |
| Resize.TextureResize.Update | src/anbox/graphics/emugl/TextureResize.cpp:231-271 | as Present, on the object's fields: the invariant is kept; returns the input and changes nothing at factor 1; otherwise the input texture and every other texture and colour attachment outside the two stages are as they were; an unchanged factor rebuilds nothing, a new one rebuilds both stages |
| Resize.TextureResize.SetupFramebuffers | src/anbox/graphics/emugl/TextureResize.cpp:273-307 | as SetupStages, including the frame on textures and colour attachments outside the stages; afterwards mFactor is the requested factor |
| Resize.TextureResize.Resize | src/anbox/graphics/emugl/TextureResize.cpp:309-355 | as ResizePasses, on the object's fields |

## Left out

- The destructor (TextureResize.cpp:218-229): deleting the GL objects ends the object's life, and the model keeps no state that depends on it.
- `glBufferData` (TextureResize.cpp:214-215): no buffer contents are modelled; the vertex data appears only as the constant vertex count of both draws.
- `glActiveTexture(GL_TEXTURE0)` and `glUniform1i(uTexture, 0)`: the model has a single texture unit and does not check that the sampler uniform points at it.
- The `GL_TEXTURE_WRAP_S/T` parameters, and the internal format and `GL_FLOAT` / `GL_UNSIGNED_BYTE` type of `glTexImage2D`: framebuffer completeness is decided only by a colour attachment of non-zero size, so a driver that rejects a float texture is not modelled.
- The compile log (`GL_INFO_LOG_LENGTH`, `glGetShaderInfoLog`) and the `ERROR` logging calls: they are I/O and do not change GL state.
- The GLSL programs' arithmetic (texel averaging, the `pow` gamma conversions, clip-space positions): these are floating-point computations on the GPU. The model keeps which varyings are sampled at which texel offsets, and the divisor.
- GL object names: `glGen*` and `glCreate*` are modelled to return one more than the last name handed out of that kind, so names are fresh and non-zero. A driver's own numbering is not modelled.
- Attribute and uniform locations: a linked program answers every lookup with location 0 and an unlinked one with -1, whatever the actual layout of locations.
- Resize.AllocateStages: the constructor (TextureResize.cpp:188-216) never sets `aPosition` or `uTexture`; the model starts them at -1. Nothing can observe the choice, because a program is linked only through attachShaders, which sets both.
- The GL error state is a single sticky flag. OpenGL ES 2.0 allows several error flags, and one `glGetError` clears only one of them. So a driver with several flags can leave an earlier error pending after the call at TextureResize.cpp:257, and `detachShaders` or the check at line 264 would then consume it. The model does not capture that case.
- Resize.AttachShaders: when the program still holds shaders, the contract says only what is untouched, not what linking then produces. setupFramebuffers always detaches first, so after RebuildPrograms the program is empty whenever no error was pending.
- Resize.LinkStages: when either program still holds shaders, the contract says only that the set of programs and the stages' objects are kept, not how the stages end up. RebuildPrograms always empties both programs first.
- Resize.RebuildPrograms: when a GL error is already pending, the contract says only that the set of programs and the stages' objects are kept, not how the programs end up. The first detachShaders takes the old error for its own and skips detaching, so the width program can keep its shaders; that call clears the flag, so the second one empties the height program as usual.
- Resize.Reconfigure: the same gap as RebuildPrograms when a GL error is already pending; the invariant and the bindings are still stated.
- Resize.SetupStages: the same gap as RebuildPrograms when a GL error is already pending and the factor changes.
- Resize.TextureResize.SetupFramebuffers: when a GL error is already pending, the contract says only that the invariant holds for the new factor, not how the programs end up. detachShaders then mistakes the old error for its own and skips detaching the width program; the height program is emptied as usual. update always clears errors first, so this case arises only for a direct caller.
- Concurrency and the GL context being current on the calling thread are not modelled.
