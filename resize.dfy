/**
 * TextureResize: shrinks a texture by a power-of-two factor in two passes,
 * first along x into the width stage, then along y into the height stage.
 * The stages' textures and shaders are rebuilt only when the factor changes.
 */
module Resize {
  import Factor
  import Shaders
  import Gl

  /** kVertexData: one triangle covering the clip square, two coordinates per vertex. */
  const VertexData: seq<int> := [-1, -1, 3, -1, -1, 3]

  /** sizeof(kVertexData) / (2 * sizeof(float)): the vertex count of both draws. */
  const VertexCount: nat := |VertexData| / 2

  /** TextureResize::Framebuffer: the objects of one reduction stage. */
  datatype Framebuffer = Framebuffer(texture: nat, framebuffer: nat, program: nat, aPosition: int, uTexture: int)

  /** The vertex shader setupFramebuffers builds for a stage: factor define, axis define, kDimension. */
  function VertexSource(factor: nat, o: Shaders.Orientation, width: nat, height: nat): seq<Shaders.SourcePart> {
    Shaders.VertexShaderParts(Shaders.FactorDefine(factor), Shaders.OrientationDefine(o), width, height)
  }

  /** The fragment shader setupFramebuffers builds for a stage. */
  function FragmentSource(factor: nat, o: Shaders.Orientation): seq<Shaders.SourcePart> {
    Shaders.FragmentShaderParts(Shaders.FactorDefine(factor), Shaders.OrientationDefine(o))
  }

  /** A slot pair with the given shaders taken out. */
  function Cleared(sl: Gl.Slots, names: seq<nat>): Gl.Slots {
    Gl.Slots(if sl.vertex in names then 0 else sl.vertex, if sl.fragment in names then 0 else sl.fragment)
  }

  /** The shaders among `names` that no program in `attached` holds. */
  ghost function Orphans(attached: map<nat, Gl.Slots>, names: seq<nat>): set<nat> {
    set s | s in names && !Gl.AttachedIn(attached, s)
  }

  /** Re-slotting program `p` leaves the orphans among `names` as they were when neither slot pair holds any of them. */
  lemma OrphansUpdate(attached: map<nat, Gl.Slots>, p: nat, sl: Gl.Slots, names: seq<nat>)
    requires p in attached ==> forall s :: s in names ==> attached[p].vertex != s && attached[p].fragment != s
    requires forall s :: s in names ==> sl.vertex != s && sl.fragment != s
    ensures Orphans(attached[p := sl], names) == Orphans(attached, names)
  {
    forall s | s in names
      ensures Gl.AttachedIn(attached[p := sl], s) == Gl.AttachedIn(attached, s)
    {
      Gl.AttachedInUpdate(attached, p, sl, s);
    }
  }

  /**
   * detachShaders: detaches and deletes the program's shaders, unless
   * glGetError reports an error (which it also clears). A deleted shader
   * disappears unless another program still holds it.
   */
  method DetachShaders(gl: Gl.Context, program: nat)
    requires gl.ObjectsValid()
    modifies gl`attached, gl`shaders, gl`error
    ensures gl.ObjectsValid() && !gl.error
    ensures gl.attached == if !old(gl.error) && program in old(gl.attached)
                           then old(gl.attached)[program := Gl.Slots(0, 0)] else old(gl.attached)
    ensures gl.shaders == if !old(gl.error) && program in old(gl.attached)
                          then old(gl.shaders) - Orphans(gl.attached, Gl.Occupied(old(gl.attached)[program]))
                          else old(gl.shaders)
  {
    var shaders := gl.GetAttachedShaders(program, 2);
    var failed := gl.GetError();
    if !failed {
      ghost var slots := gl.attached[program];
      assert shaders == Gl.Occupied(slots);
      assert gl.SlotsValid(slots);
      assert forall k :: 0 <= k < |shaders| ==> shaders[k] in old(gl.shaders);
      var i := 0;
      while i < |shaders|
        invariant 0 <= i <= |shaders|
        invariant gl.ObjectsValid() && !gl.error
        invariant gl.attached == old(gl.attached)[program := Cleared(slots, shaders[..i])]
        invariant gl.shaders == old(gl.shaders) - Orphans(gl.attached, shaders[..i])
      {
        assert shaders[i] !in shaders[..i];
        DetachOne(gl, program, slots, shaders, i, old(gl.attached), old(gl.shaders));
        i := i + 1;
      }
      assert shaders[..i] == shaders;
    }
  }

  /**
   * One round of the detachShaders loop, on a context whose programs were
   * `attached0` and whose shaders were `shaders0` before the loop: the
   * `i`-th listed shader detached from `program`, then deleted.
   */
  method DetachOne(gl: Gl.Context, program: nat, ghost slots: Gl.Slots, shaders: seq<nat>, i: nat,
                   ghost attached0: map<nat, Gl.Slots>, ghost shaders0: map<nat, Gl.Shader>)
    requires gl.ObjectsValid() && !gl.error
    requires i < |shaders| && shaders == Gl.Occupied(slots)
    requires shaders[i] in shaders0 && shaders[i] !in shaders[..i]
    requires gl.attached == attached0[program := Cleared(slots, shaders[..i])]
    requires gl.shaders == shaders0 - Orphans(gl.attached, shaders[..i])
    modifies gl`attached, gl`shaders, gl`error
    ensures gl.ObjectsValid() && !gl.error
    ensures gl.attached == attached0[program := Cleared(slots, shaders[..i + 1])]
    ensures gl.shaders == shaders0 - Orphans(gl.attached, shaders[..i + 1])
  {
    assert shaders[..i + 1] == shaders[..i] + [shaders[i]];
    ghost var before := gl.attached;
    gl.DetachShader(program, shaders[i]);
    assert gl.attached == attached0[program := Cleared(slots, shaders[..i + 1])];
    OrphansUpdate(before, program, gl.attached[program], shaders[..i]);
    ghost var remaining := gl.shaders;
    ghost var orphan := Orphans(gl.attached, [shaders[i]]);
    assert orphan == if Gl.AttachedIn(gl.attached, shaders[i]) then {} else {shaders[i]};
    assert shaders[i] in remaining;
    gl.DeleteShader(shaders[i]);
    assert gl.shaders == remaining - orphan;
    assert Orphans(gl.attached, shaders[..i + 1]) == Orphans(gl.attached, shaders[..i]) + orphan;
    MinusUnion(shaders0, Orphans(gl.attached, shaders[..i]), orphan);
  }

  /** Removing two sets of keys one after the other removes their union. */
  lemma MinusUnion<K, V>(m: map<K, V>, a: set<K>, b: set<K>)
    ensures (m - a) - b == m - (a + b)
  {
  }

  /**
   * createShader: a shader compiled from `source`, or 0 (and no shader left
   * behind) when the driver rejects the source.
   */
  method CreateShader(gl: Gl.Context, kind: Gl.ShaderKind, source: seq<Shaders.SourcePart>) returns (shader: nat)
    requires gl.ObjectsValid()
    modifies gl`shaders, gl`lastObject, gl`error
    ensures gl.ObjectsValid() && gl.error == old(gl.error)
    ensures shader != 0 <==> gl.compiles(kind, source)
    ensures shader != 0 ==> shader !in old(gl.shaders) && !gl.AttachedAnywhere(shader)
    ensures gl.shaders == if shader == 0 then old(gl.shaders) else old(gl.shaders)[shader := Gl.Shader(kind, source, true)]
  {
    shader := gl.CreateShader(kind);
    if shader != 0 {
      gl.ShaderSource(shader, source);
      gl.CompileShader(shader);
      var success := gl.GetCompileStatus(shader);
      if !success {
        gl.DeleteShader(shader);
        shader := 0;
      }
    }
  }

  /**
   * The tail of attachShaders once both shaders compiled: attach both, link,
   * make the program current and look up its two locations.
   */
  method LinkStage(gl: Gl.Context, fb: Framebuffer, vShader: nat, fShader: nat) returns (fb': Framebuffer)
    requires gl.ObjectsValid() && fb.program in gl.attached
    requires vShader in gl.shaders && gl.shaders[vShader].kind == Gl.VertexKind && gl.shaders[vShader].compiled
    requires fShader in gl.shaders && gl.shaders[fShader].kind == Gl.FragmentKind && gl.shaders[fShader].compiled
    modifies gl`attached, gl`linked, gl`program, gl`error
    ensures gl.ObjectsValid()
    ensures fb' == fb.(aPosition := fb'.aPosition, uTexture := fb'.uTexture)
    ensures gl.attached.Keys == old(gl.attached).Keys
    ensures forall p :: p in gl.attached && p != fb.program ==> gl.attached[p] == old(gl.attached)[p]
    ensures gl.linked - {fb.program} == old(gl.linked) - {fb.program}
    ensures old(gl.attached)[fb.program] == Gl.Slots(0, 0) ==>
      && gl.attached[fb.program] == Gl.Slots(vShader, fShader)
      && if gl.links(gl.shaders[vShader].source, gl.shaders[fShader].source) then
           && fb.program in gl.linked
           && gl.linked[fb.program] == Gl.Executable(gl.shaders[vShader].source, gl.shaders[fShader].source)
           && gl.program == fb.program
           && fb' == fb.(aPosition := 0, uTexture := 0)
           && gl.error == old(gl.error)
         else
           && fb.program !in gl.linked
           && gl.program == old(gl.program)
           && fb' == fb.(aPosition := -1, uTexture := -1)
           && gl.error
  {
    AttachPair(gl, fb.program, vShader, fShader);
    fb' := LinkAndLocate(gl, fb);
  }

  /** The two glAttachShader calls: into an empty program they fill both slots without error. */
  method AttachPair(gl: Gl.Context, program: nat, vShader: nat, fShader: nat)
    requires gl.ObjectsValid() && program in gl.attached
    requires vShader in gl.shaders && gl.shaders[vShader].kind == Gl.VertexKind
    requires fShader in gl.shaders && gl.shaders[fShader].kind == Gl.FragmentKind
    modifies gl`attached, gl`error
    ensures gl.ObjectsValid()
    ensures gl.attached.Keys == old(gl.attached).Keys
    ensures forall p :: p in gl.attached && p != program ==> gl.attached[p] == old(gl.attached)[p]
    ensures old(gl.attached)[program] == Gl.Slots(0, 0) ==>
      gl.attached[program] == Gl.Slots(vShader, fShader) && gl.error == old(gl.error)
  {
    gl.AttachShader(program, vShader);
    gl.AttachShader(program, fShader);
  }

  /**
   * glLinkProgram, glUseProgram and the two location lookups of
   * attachShaders: a program the driver links runs its shaders, is current
   * and answers both lookups; one it fails to link has no executable, leaves
   * the current program as it was, answers -1 to both lookups and raises
   * GL_INVALID_OPERATION.
   */
  method LinkAndLocate(gl: Gl.Context, fb: Framebuffer) returns (fb': Framebuffer)
    requires gl.ObjectsValid() && fb.program in gl.attached
    modifies gl`linked, gl`program, gl`error
    ensures gl.ObjectsValid()
    ensures fb' == fb.(aPosition := fb'.aPosition, uTexture := fb'.uTexture)
    ensures gl.linked - {fb.program} == old(gl.linked) - {fb.program}
    ensures gl.Linkable(fb.program) ==>
      && fb.program in gl.linked && gl.linked[fb.program] == gl.Linked(fb.program)
      && gl.program == fb.program
      && fb' == fb.(aPosition := 0, uTexture := 0)
      && gl.error == old(gl.error)
    ensures !gl.Linkable(fb.program) ==>
      && fb.program !in gl.linked
      && gl.program == old(gl.program)
      && fb' == fb.(aPosition := -1, uTexture := -1)
      && gl.error
  {
    gl.LinkProgram(fb.program);
    gl.UseProgram(fb.program);
    var aPosition := gl.GetLocation(fb.program);
    var uTexture := gl.GetLocation(fb.program);
    fb' := fb.(aPosition := aPosition, uTexture := uTexture);
  }

  /**
   * attachShaders: builds the vertex and fragment shaders of a stage; when
   * both compile, links them into the stage's program. When either fails it
   * returns at once: the program is left as it was (and a shader that did
   * compile is not deleted). When the link fails, the program has no
   * executable, both locations are -1 and glUseProgram raises an error.
   */
  method AttachShaders(gl: Gl.Context, fb: Framebuffer, factorDefine: string, dimensionDefine: string,
                       width: nat, height: nat) returns (fb': Framebuffer)
    requires gl.ObjectsValid() && fb.program in gl.attached
    modifies gl`shaders, gl`lastObject, gl`error, gl`attached, gl`linked, gl`program
    ensures gl.ObjectsValid()
    ensures fb' == fb.(aPosition := fb'.aPosition, uTexture := fb'.uTexture)
    ensures gl.attached.Keys == old(gl.attached).Keys
    ensures forall p :: p in gl.attached && p != fb.program ==> gl.attached[p] == old(gl.attached)[p]
    ensures gl.linked - {fb.program} == old(gl.linked) - {fb.program}
    ensures !(gl.compiles(Gl.VertexKind, Shaders.VertexShaderParts(factorDefine, dimensionDefine, width, height))
              && gl.compiles(Gl.FragmentKind, Shaders.FragmentShaderParts(factorDefine, dimensionDefine))) ==>
      && fb' == fb && gl.attached == old(gl.attached) && gl.linked == old(gl.linked)
      && gl.program == old(gl.program) && gl.error == old(gl.error)
    ensures gl.compiles(Gl.VertexKind, Shaders.VertexShaderParts(factorDefine, dimensionDefine, width, height))
            && gl.compiles(Gl.FragmentKind, Shaders.FragmentShaderParts(factorDefine, dimensionDefine))
            && old(gl.attached)[fb.program] == Gl.Slots(0, 0) ==>
      if gl.links(Shaders.VertexShaderParts(factorDefine, dimensionDefine, width, height),
                  Shaders.FragmentShaderParts(factorDefine, dimensionDefine)) then
        && fb.program in gl.linked
        && gl.linked[fb.program] == Gl.Executable(Shaders.VertexShaderParts(factorDefine, dimensionDefine, width, height),
                                                  Shaders.FragmentShaderParts(factorDefine, dimensionDefine))
        && gl.program == fb.program
        && fb' == fb.(aPosition := 0, uTexture := 0)
        && gl.error == old(gl.error)
      else
        && fb.program !in gl.linked
        && gl.program == old(gl.program)
        && fb' == fb.(aPosition := -1, uTexture := -1)
        && gl.error
  {
    var vShader := CreateShader(gl, Gl.VertexKind, Shaders.VertexShaderParts(factorDefine, dimensionDefine, width, height));
    var fShader := CreateShader(gl, Gl.FragmentKind, Shaders.FragmentShaderParts(factorDefine, dimensionDefine));
    if vShader == 0 || fShader == 0 {
      return fb;
    }
    fb' := LinkStage(gl, fb, vShader, fShader);
  }

  /**
   * The first half of setupFramebuffers for one stage: `texture` gets a
   * `w` x `h` level 0 and becomes the color attachment of `framebuffer`.
   */
  method SizeStage(gl: Gl.Context, texture: nat, framebuffer: nat, w: nat, h: nat)
    requires gl.BindingsValid() && texture in gl.textures && framebuffer != 0
    modifies gl`texture, gl`textures, gl`lastTexture, gl`framebuffer, gl`colorAttachments, gl`error
    ensures gl.BindingsValid()
    ensures gl.texture == texture && gl.framebuffer == framebuffer && gl.error == old(gl.error)
    ensures gl.textures == old(gl.textures)[texture := old(gl.textures)[texture].(width := w, height := h)]
    ensures gl.colorAttachments == old(gl.colorAttachments)[framebuffer := texture]
  {
    gl.BindTexture(texture);
    gl.TexImage2D(w, h);
    gl.BindFramebuffer(framebuffer);
    gl.FramebufferTexture2D(texture);
  }

  /**
   * The set-up of one pass of resize: the stage's framebuffer, a `w` x `h`
   * viewport at the origin, the stage's program and its position attribute.
   */
  method BeginPass(gl: Gl.Context, stage: Framebuffer, w: nat, h: nat)
    requires gl.BindingsValid()
    modifies gl`framebuffer, gl`viewport, gl`program, gl`error
    ensures gl.BindingsValid()
    ensures gl.framebuffer == stage.framebuffer && gl.viewport == Gl.Viewport(0, 0, w, h)
    ensures gl.program == if stage.program == 0 || stage.program in gl.linked then stage.program else old(gl.program)
    ensures gl.error == (old(gl.error) || (stage.program != 0 && stage.program !in gl.linked)
                         || !gl.ValidAttrib(stage.aPosition))
  {
    gl.BindFramebuffer(stage.framebuffer);
    gl.SetViewport(0, 0, w, h);
    gl.UseProgram(stage.program);
    gl.UseVertexAttrib(stage.aPosition);  // glEnableVertexAttribArray
    gl.UseVertexAttrib(stage.aPosition);  // glVertexAttribPointer
  }

  /** The draw of the first pass: `texture` sampled with nearest filtering, its own filters put back afterwards. */
  method DrawNearest(gl: Gl.Context, texture: nat)
    requires gl.BindingsValid()
    modifies gl`texture, gl`textures, gl`lastTexture, gl`draws, gl`error
    ensures gl.BindingsValid()
    ensures gl.texture == texture
    ensures gl.textures == if texture in old(gl.textures) then old(gl.textures)
                           else old(gl.textures)[texture := Gl.DefaultTexture]
    ensures gl.draws == old(gl.draws) + if gl.framebuffer == 0 || gl.Complete(gl.framebuffer)
                                        then [Gl.Draw(gl.framebuffer, gl.viewport, gl.program, texture,
                                                      Gl.NEAREST, Gl.NEAREST, VertexCount)]
                                        else []
    ensures gl.error == (old(gl.error) || (gl.framebuffer != 0 && !gl.Complete(gl.framebuffer)))
  {
    gl.BindTexture(texture);
    ghost var bound := gl.textures;
    var magFilter := gl.GetTexParameter(Gl.MagFilter);
    var minFilter := gl.GetTexParameter(Gl.MinFilter);
    gl.TexParameter(Gl.MagFilter, Gl.NEAREST);
    gl.TexParameter(Gl.MinFilter, Gl.NEAREST);
    ghost var complete := gl.Complete(gl.framebuffer);
    gl.DrawArrays(VertexCount);
    gl.TexParameter(Gl.MagFilter, magFilter);
    gl.TexParameter(Gl.MinFilter, minFilter);
    assert gl.textures == bound;
    assert gl.Complete(gl.framebuffer) == complete;
  }

  /** The draw of the second pass: `texture` sampled with its own filters. */
  method DrawTexture(gl: Gl.Context, texture: nat)
    requires gl.BindingsValid() && texture in gl.textures
    modifies gl`texture, gl`textures, gl`lastTexture, gl`draws, gl`error
    ensures gl.BindingsValid()
    ensures gl.texture == texture && gl.textures == old(gl.textures)
    ensures gl.draws == old(gl.draws) + if gl.framebuffer == 0 || gl.Complete(gl.framebuffer)
                                        then [Gl.Draw(gl.framebuffer, gl.viewport, gl.program, texture,
                                                      gl.textures[texture].minFilter, gl.textures[texture].magFilter,
                                                      VertexCount)]
                                        else []
    ensures gl.error == (old(gl.error) || (gl.framebuffer != 0 && !gl.Complete(gl.framebuffer)))
  {
    gl.BindTexture(texture);
    gl.DrawArrays(VertexCount);
  }

  /** A new texture object, bound, with both filters set to `filter`. */
  method NewTexture(gl: Gl.Context, filter: int) returns (t: nat)
    requires gl.BindingsValid()
    modifies gl`texture, gl`textures, gl`lastTexture
    ensures gl.BindingsValid()
    ensures t != 0 && t !in old(gl.textures) && gl.texture == t
    ensures gl.textures == old(gl.textures)[t := Gl.DefaultTexture.(minFilter := filter, magFilter := filter)]
  {
    t := gl.GenTexture();
    gl.BindTexture(t);
    gl.TexParameter(Gl.MagFilter, filter);
    gl.TexParameter(Gl.MinFilter, filter);
  }

  /** The objects of the two stages exist and are distinct, and their filters are the ones the constructor sets. */
  ghost predicate StagesValid(gl: Gl.Context, ws: Framebuffer, hs: Framebuffer)
    reads gl`textures, gl`attached
  {
    && ws.texture != 0 && hs.texture != 0 && ws.texture != hs.texture
    && ws.framebuffer != 0 && hs.framebuffer != 0 && ws.framebuffer != hs.framebuffer
    && ws.program != 0 && hs.program != 0 && ws.program != hs.program
    && ws.texture in gl.textures && hs.texture in gl.textures
    && ws.program in gl.attached && hs.program in gl.attached
    // the width stage is sampled with nearest filtering, the height stage's output with linear
    && gl.textures[ws.texture].minFilter == Gl.NEAREST && gl.textures[ws.texture].magFilter == Gl.NEAREST
    && gl.textures[hs.texture].minFilter == Gl.LINEAR && gl.textures[hs.texture].magFilter == Gl.LINEAR
  }

  /**
   * The stage textures are sized for factor `f` of a `width` x `height`
   * source and attached to their framebuffers.
   */
  ghost predicate Configured(gl: Gl.Context, ws: Framebuffer, hs: Framebuffer, f: nat, width: nat, height: nat)
    reads gl`textures, gl`colorAttachments
    requires f > 0
  {
    && ws.texture in gl.textures && hs.texture in gl.textures
    && gl.textures[ws.texture].width == width / f && gl.textures[ws.texture].height == height
    && gl.textures[hs.texture].width == width / f && gl.textures[hs.texture].height == height / f
    && ws.framebuffer in gl.colorAttachments && gl.colorAttachments[ws.framebuffer] == ws.texture
    && hs.framebuffer in gl.colorAttachments && gl.colorAttachments[hs.framebuffer] == hs.texture
  }

  /**
   * The invariant of a TextureResize: a well-formed context, valid stages,
   * and for a factor above 1 stage textures sized for it.
   */
  ghost predicate Invariant(gl: Gl.Context, ws: Framebuffer, hs: Framebuffer, factor: nat, width: nat, height: nat)
    reads gl`texture, gl`textures, gl`lastTexture, gl`shaders, gl`attached, gl`linked, gl`lastObject
    reads gl`colorAttachments
  {
    && gl.Valid()
    && StagesValid(gl, ws, hs)
    && factor >= 1
    && (factor > 1 ==> Configured(gl, ws, hs, factor, width, height))
  }

  /** Both shaders of the stage for axis `o` compile with factor `f`. */
  ghost predicate StageCompiles(gl: Gl.Context, o: Shaders.Orientation, f: nat, width: nat, height: nat) {
    && gl.compiles(Gl.VertexKind, VertexSource(f, o, width, height))
    && gl.compiles(Gl.FragmentKind, FragmentSource(f, o))
  }

  /** The driver links the two shaders of the stage for axis `o` with factor `f`. */
  ghost predicate StageLinks(gl: Gl.Context, o: Shaders.Orientation, f: nat, width: nat, height: nat) {
    gl.links(VertexSource(f, o, width, height), FragmentSource(f, o))
  }

  /** The stage's shaders for factor `f` compile but do not link. */
  ghost predicate LinkFails(gl: Gl.Context, o: Shaders.Orientation, f: nat, width: nat, height: nat) {
    StageCompiles(gl, o, f, width, height) && !StageLinks(gl, o, f, width, height)
  }

  /**
   * After a factor change to `f`: the stage keeps its objects; if its
   * shaders compile and link, its program runs them and its locations are
   * known; if they compile but do not link, its program has no executable
   * and both locations are -1; if they do not compile, the stage and its
   * program's link state are as they were.
   */
  ghost predicate Rebuilt(gl: Gl.Context, linked: map<nat, Gl.Executable>, stage: Framebuffer, before: Framebuffer,
                          linkedBefore: map<nat, Gl.Executable>, o: Shaders.Orientation, f: nat,
                          width: nat, height: nat)
  {
    && stage.texture == before.texture && stage.framebuffer == before.framebuffer
    && stage.program == before.program
    && if StageCompiles(gl, o, f, width, height) then
         if StageLinks(gl, o, f, width, height) then
           && stage.program in linked
           && linked[stage.program] == Gl.Executable(VertexSource(f, o, width, height), FragmentSource(f, o))
           && stage.aPosition == 0 && stage.uTexture == 0
         else
           && stage.program !in linked
           && stage.aPosition == -1 && stage.uTexture == -1
       else
         && stage == before
         && (stage.program in linked <==> stage.program in linkedBefore)
         && (stage.program in linked ==> linked[stage.program] == linkedBefore[stage.program])
  }

  /** Two link maps that differ only at program `q` agree at every other program `p`. */
  lemma AgreeOutside(m: map<nat, Gl.Executable>, m': map<nat, Gl.Executable>, q: nat, p: nat)
    requires m - {q} == m' - {q} && p != q
    ensures p in m <==> p in m'
    ensures p in m ==> m[p] == m'[p]
  {
    assert p in m <==> p in m - {q};
    assert p in m' <==> p in m' - {q};
    if p in m {
      assert (m - {q})[p] == m[p];
      assert (m' - {q})[p] == m'[p];
    }
  }

  /** Rebuilt depends on the link maps only at the stage's own program. */
  lemma RebuiltAgree(gl: Gl.Context, linked: map<nat, Gl.Executable>, linked': map<nat, Gl.Executable>,
                     stage: Framebuffer, before: Framebuffer,
                     linkedBefore: map<nat, Gl.Executable>, linkedBefore': map<nat, Gl.Executable>,
                     o: Shaders.Orientation, f: nat, width: nat, height: nat)
    requires Rebuilt(gl, linked, stage, before, linkedBefore, o, f, width, height)
    requires stage.program in linked <==> stage.program in linked'
    requires stage.program in linked ==> linked[stage.program] == linked'[stage.program]
    requires stage.program in linkedBefore <==> stage.program in linkedBefore'
    requires stage.program in linkedBefore ==> linkedBefore[stage.program] == linkedBefore'[stage.program]
    ensures Rebuilt(gl, linked', stage, before, linkedBefore', o, f, width, height)
  {
  }

  /**
   * The outcome of the two passes over `texture` with factor `f`: the height
   * stage's texture and the two draws after `draws`, or the input texture
   * when the stages fault.
   */
  ghost predicate Rendered(gl: Gl.Context, ws: Framebuffer, hs: Framebuffer, f: nat, width: nat, height: nat,
                           texture: nat, draws: seq<Gl.Draw>, result: nat)
    requires f > 0
    reads gl`linked, gl`colorAttachments, gl`textures, gl`draws
  {
    && result == (if Faults(gl, ws, hs) then texture else hs.texture)
    && (!Faults(gl, ws, hs) ==>
          gl.draws == draws + [WidthPass(ws, width / f, height, ws.program, texture),
                               HeightPass(ws, hs, width / f, height / f, hs.program)])
  }

  /**
   * update after choosing factor `f` above 1, against the state it started
   * from (`viewport`, `draws`, `textures`, `attachments`, stages `ws0` and
   * `hs0`): the viewport restored, the bindings and the error flag cleared,
   * the passes Rendered, and every texture and colour attachment outside the
   * stages, the input among them, as it was.
   */
  ghost predicate Presented(gl: Gl.Context, ws: Framebuffer, hs: Framebuffer, f: nat, width: nat, height: nat,
                            texture: nat, result: nat, viewport: Gl.Viewport, draws: seq<Gl.Draw>,
                            textures: map<nat, Gl.TexInfo>, attachments: map<nat, nat>,
                            ws0: Framebuffer, hs0: Framebuffer)
    requires f > 0
    reads gl`viewport, gl`framebuffer, gl`texture, gl`arrayBuffer, gl`error
    reads gl`linked, gl`colorAttachments, gl`textures, gl`draws
  {
    && gl.viewport == viewport
    && gl.framebuffer == 0 && gl.texture == 0 && gl.arrayBuffer == 0 && !gl.error
    && Rendered(gl, ws, hs, f, width, height, texture, draws, result)
    && OthersKept(gl.textures, Gl.WithTexture(textures, texture), gl.colorAttachments, attachments, ws0, hs0)
    // the input texture in particular: its size and filters are as at entry
    && (texture in textures && texture != ws0.texture && texture != hs0.texture ==>
          texture in gl.textures && gl.textures[texture] == textures[texture])
  }

  /** Both stages Rebuilt for factor `f`, the width stage along x and the height stage along y. */
  ghost predicate StagesRebuilt(gl: Gl.Context, linked: map<nat, Gl.Executable>, ws: Framebuffer, hs: Framebuffer,
                                ws0: Framebuffer, hs0: Framebuffer, linkedBefore: map<nat, Gl.Executable>,
                                f: nat, width: nat, height: nat)
  {
    && Rebuilt(gl, linked, ws, ws0, linkedBefore, Shaders.Horizontal, f, width, height)
    && Rebuilt(gl, linked, hs, hs0, linkedBefore, Shaders.Vertical, f, width, height)
  }

  /** A stage that can render: linked program, valid attribute, complete framebuffer. */
  ghost predicate Ready(gl: Gl.Context, stage: Framebuffer)
    reads gl`linked, gl`colorAttachments, gl`textures
  {
    stage.program in gl.linked && gl.ValidAttrib(stage.aPosition) && gl.Complete(stage.framebuffer)
  }

  /**
   * A stage rebuilt for shaders that compile but do not link cannot render,
   * so the passes fault and update falls back to its input.
   */
  lemma FailedLinkNotReady(gl: Gl.Context, stage: Framebuffer, before: Framebuffer,
                           linkedBefore: map<nat, Gl.Executable>, o: Shaders.Orientation, f: nat,
                           width: nat, height: nat)
    requires Rebuilt(gl, gl.linked, stage, before, linkedBefore, o, f, width, height)
    requires LinkFails(gl, o, f, width, height)
    ensures !Ready(gl, stage)
  {
  }

  /** The program current after glUseProgram(p) with `previous` current before it. */
  function Current(linked: map<nat, Gl.Executable>, p: nat, previous: nat): nat {
    if p == 0 || p in linked then p else previous
  }

  /** Pass 1: `texture`, nearest-filtered, into the width stage at `w` x `h`. */
  function WidthPass(ws: Framebuffer, w: nat, h: nat, program: nat, texture: nat): Gl.Draw {
    Gl.Draw(ws.framebuffer, Gl.Viewport(0, 0, w, h), program, texture, Gl.NEAREST, Gl.NEAREST, VertexCount)
  }

  /** Pass 2: the width stage's texture into the height stage at `w` x `h`. */
  function HeightPass(ws: Framebuffer, hs: Framebuffer, w: nat, h: nat, program: nat): Gl.Draw {
    Gl.Draw(hs.framebuffer, Gl.Viewport(0, 0, w, h), program, ws.texture, Gl.NEAREST, Gl.NEAREST, VertexCount)
  }

  /**
   * The draws of the two passes, given the program current before them: a
   * pass whose framebuffer is incomplete draws nothing; a pass whose program
   * is not linked draws with whatever program was current.
   */
  ghost function PassDraws(gl: Gl.Context, ws: Framebuffer, hs: Framebuffer, w: nat, h1: nat, h2: nat,
                           texture: nat, previous: nat): seq<Gl.Draw>
    reads gl`linked, gl`colorAttachments, gl`textures
  {
    var first := Current(gl.linked, ws.program, previous);
    var second := Current(gl.linked, hs.program, first);
    (if gl.Complete(ws.framebuffer) then [WidthPass(ws, w, h1, first, texture)] else [])
    + (if gl.Complete(hs.framebuffer) then [HeightPass(ws, hs, w, h2, second)] else [])
  }

  /** When both stages are ready, exactly the two passes render, each through its own program. */
  lemma ReadyPassDraws(gl: Gl.Context, ws: Framebuffer, hs: Framebuffer, w: nat, h1: nat, h2: nat,
                       texture: nat, previous: nat)
    requires Ready(gl, ws) && Ready(gl, hs)
    ensures PassDraws(gl, ws, hs, w, h1, h2, texture, previous)
            == [WidthPass(ws, w, h1, ws.program, texture), HeightPass(ws, hs, w, h2, hs.program)]
  {
  }

  /** When neither stage framebuffer is complete, nothing renders. */
  lemma IncompletePassDraws(gl: Gl.Context, ws: Framebuffer, hs: Framebuffer, w: nat, h1: nat, h2: nat,
                            texture: nat, previous: nat)
    requires !gl.Complete(ws.framebuffer) && !gl.Complete(hs.framebuffer)
    ensures PassDraws(gl, ws, hs, w, h1, h2, texture, previous) == []
  {
  }

  /** The first pass of resize: set up the width stage and draw `texture` with nearest filtering. */
  method FirstPass(gl: Gl.Context, ws: Framebuffer, w: nat, h: nat, texture: nat)
    requires gl.BindingsValid() && ws.program != 0 && ws.framebuffer != 0
    modifies gl`framebuffer, gl`viewport, gl`program, gl`texture, gl`textures, gl`lastTexture, gl`draws, gl`error
    ensures gl.BindingsValid()
    ensures gl.framebuffer == ws.framebuffer && gl.viewport == Gl.Viewport(0, 0, w, h) && gl.texture == texture
    ensures gl.program == Current(gl.linked, ws.program, old(gl.program))
    ensures gl.textures == if texture in old(gl.textures) then old(gl.textures)
                           else old(gl.textures)[texture := Gl.DefaultTexture]
    ensures gl.draws == old(gl.draws) + if gl.Complete(ws.framebuffer) then [WidthPass(ws, w, h, gl.program, texture)] else []
    ensures gl.error == (old(gl.error) || !Ready(gl, ws))
  {
    BeginPass(gl, ws, w, h);
    DrawNearest(gl, texture);
  }

  /** The second pass of resize: set up the height stage and draw the width stage's texture. */
  method SecondPass(gl: Gl.Context, ws: Framebuffer, hs: Framebuffer, w: nat, h: nat)
    requires gl.BindingsValid() && hs.program != 0 && hs.framebuffer != 0
    requires ws.texture in gl.textures
    requires gl.textures[ws.texture].minFilter == Gl.NEAREST && gl.textures[ws.texture].magFilter == Gl.NEAREST
    modifies gl`framebuffer, gl`viewport, gl`program, gl`texture, gl`textures, gl`lastTexture, gl`draws, gl`error
    ensures gl.BindingsValid()
    ensures gl.framebuffer == hs.framebuffer && gl.viewport == Gl.Viewport(0, 0, w, h) && gl.texture == ws.texture
    ensures gl.program == Current(gl.linked, hs.program, old(gl.program))
    ensures gl.textures == old(gl.textures)
    ensures gl.draws == old(gl.draws) + if gl.Complete(hs.framebuffer) then [HeightPass(ws, hs, w, h, gl.program)] else []
    ensures gl.error == (old(gl.error) || !Ready(gl, hs))
  {
    BeginPass(gl, hs, w, h);
    DrawTexture(gl, ws.texture);
  }

  /** The end of resize: no buffer, framebuffer or texture bound. */
  method ClearBindings(gl: Gl.Context)
    requires gl.BindingsValid()
    modifies gl`arrayBuffer, gl`framebuffer, gl`texture, gl`textures, gl`lastTexture
    ensures gl.BindingsValid()
    ensures gl.arrayBuffer == 0 && gl.framebuffer == 0 && gl.texture == 0
    ensures gl.textures == old(gl.textures)
  {
    gl.BindBuffer(0);
    gl.BindFramebuffer(0);
    gl.BindTexture(0);
  }

  /**
   * The body of resize: the first pass into the width stage at `w` x `h1`,
   * the second into the height stage at `w` x `h2`, then the bindings cleared.
   */
  method RunPasses(gl: Gl.Context, vertexBuffer: nat, ws: Framebuffer, hs: Framebuffer,
                   w: nat, h1: nat, h2: nat, texture: nat)
    requires gl.BindingsValid()
    requires ws.program != 0 && ws.framebuffer != 0 && hs.program != 0 && hs.framebuffer != 0
    requires ws.texture in gl.textures
    requires gl.textures[ws.texture].minFilter == Gl.NEAREST && gl.textures[ws.texture].magFilter == Gl.NEAREST
    modifies gl`arrayBuffer, gl`framebuffer, gl`viewport, gl`program, gl`texture, gl`textures, gl`lastTexture
    modifies gl`draws, gl`error
    ensures gl.BindingsValid()
    ensures gl.viewport == Gl.Viewport(0, 0, w, h2)
    ensures gl.arrayBuffer == 0 && gl.framebuffer == 0 && gl.texture == 0
    ensures gl.textures == if texture in old(gl.textures) then old(gl.textures)
                           else old(gl.textures)[texture := Gl.DefaultTexture]
    ensures gl.error == (old(gl.error) || !Ready(gl, ws) || !Ready(gl, hs))
    ensures gl.draws == old(gl.draws) + PassDraws(gl, ws, hs, w, h1, h2, texture, old(gl.program))
  {
    gl.BindBuffer(vertexBuffer);
    FirstPass(gl, ws, w, h1, texture);
    SecondPass(gl, ws, hs, w, h2);
    ClearBindings(gl);
  }

  /** The first half of setupFramebuffers: both stage textures sized and attached. */
  method SizeStages(gl: Gl.Context, ws: Framebuffer, hs: Framebuffer, w: nat, h1: nat, h2: nat)
    requires gl.BindingsValid() && ws.texture in gl.textures && hs.texture in gl.textures
    requires ws.framebuffer != 0 && hs.framebuffer != 0
    modifies gl`texture, gl`textures, gl`lastTexture, gl`framebuffer, gl`colorAttachments, gl`error
    ensures gl.BindingsValid()
    ensures gl.texture == hs.texture && gl.framebuffer == hs.framebuffer && gl.error == old(gl.error)
    ensures gl.textures == old(gl.textures)[ws.texture := old(gl.textures)[ws.texture].(width := w, height := h1)]
                                           [hs.texture := old(gl.textures)[hs.texture].(width := w, height := h2)]
    ensures gl.colorAttachments == old(gl.colorAttachments)[ws.framebuffer := ws.texture][hs.framebuffer := hs.texture]
  {
    SizeStage(gl, ws.texture, ws.framebuffer, w, h1);
    SizeStage(gl, hs.texture, hs.framebuffer, w, h2);
  }

  /**
   * The second half of setupFramebuffers: both programs emptied, then given
   * the shaders for factor `f` along their axis.
   */
  method RebuildPrograms(gl: Gl.Context, ws: Framebuffer, hs: Framebuffer, f: nat, width: nat, height: nat)
    returns (ws': Framebuffer, hs': Framebuffer)
    requires gl.ObjectsValid()
    requires ws.program in gl.attached && hs.program in gl.attached && ws.program != hs.program
    modifies gl`attached, gl`shaders, gl`lastObject, gl`linked, gl`program, gl`error
    ensures gl.ObjectsValid()
    ensures gl.attached.Keys == old(gl.attached).Keys
    ensures ws' == ws.(aPosition := ws'.aPosition, uTexture := ws'.uTexture)
    ensures hs' == hs.(aPosition := hs'.aPosition, uTexture := hs'.uTexture)
    ensures !old(gl.error) ==>
      && gl.error == (LinkFails(gl, Shaders.Horizontal, f, width, height) || LinkFails(gl, Shaders.Vertical, f, width, height))
      && StagesRebuilt(gl, gl.linked, ws', hs', ws, hs, old(gl.linked), f, width, height)
  {
    DetachShaders(gl, ws.program);
    DetachShaders(gl, hs.program);
    ws', hs' := LinkStages(gl, ws, hs, f, width, height);
  }

  /** The end of setupFramebuffers: attachShaders for the width stage, then for the height stage. */
  method LinkStages(gl: Gl.Context, ws: Framebuffer, hs: Framebuffer, f: nat, width: nat, height: nat)
    returns (ws': Framebuffer, hs': Framebuffer)
    requires gl.ObjectsValid()
    requires ws.program in gl.attached && hs.program in gl.attached && ws.program != hs.program
    modifies gl`attached, gl`shaders, gl`lastObject, gl`linked, gl`program, gl`error
    ensures gl.ObjectsValid()
    ensures gl.attached.Keys == old(gl.attached).Keys
    ensures ws' == ws.(aPosition := ws'.aPosition, uTexture := ws'.uTexture)
    ensures hs' == hs.(aPosition := hs'.aPosition, uTexture := hs'.uTexture)
    ensures old(gl.attached)[ws.program] == Gl.Slots(0, 0) && old(gl.attached)[hs.program] == Gl.Slots(0, 0) ==>
      && gl.error == (old(gl.error) || LinkFails(gl, Shaders.Horizontal, f, width, height)
                      || LinkFails(gl, Shaders.Vertical, f, width, height))
      && StagesRebuilt(gl, gl.linked, ws', hs', ws, hs, old(gl.linked), f, width, height)
  {
    ghost var linkedBefore: map<nat, Gl.Executable> := gl.linked;
    ws' := BuildStage(gl, ws, Shaders.Horizontal, f, width, height);
    ghost var linkedMiddle: map<nat, Gl.Executable> := gl.linked;
    hs' := BuildStage(gl, hs, Shaders.Vertical, f, width, height);
    if old(gl.attached)[ws.program] == Gl.Slots(0, 0) && old(gl.attached)[hs.program] == Gl.Slots(0, 0) {
      AgreeOutside(linkedMiddle, gl.linked, hs.program, ws.program);
      RebuiltAgree(gl, linkedMiddle, gl.linked, ws', ws, linkedBefore, linkedBefore,
                   Shaders.Horizontal, f, width, height);
      AgreeOutside(linkedBefore, linkedMiddle, ws.program, hs.program);
      RebuiltAgree(gl, gl.linked, gl.linked, hs', hs, linkedMiddle, linkedBefore,
                   Shaders.Vertical, f, width, height);
    }
  }

  /** attachShaders for one stage: on an empty program, the stage is Rebuilt for factor `f` along `o`. */
  method BuildStage(gl: Gl.Context, stage: Framebuffer, o: Shaders.Orientation, f: nat, width: nat, height: nat)
    returns (stage': Framebuffer)
    requires gl.ObjectsValid() && stage.program in gl.attached
    modifies gl`shaders, gl`lastObject, gl`error, gl`attached, gl`linked, gl`program
    ensures gl.ObjectsValid()
    ensures stage' == stage.(aPosition := stage'.aPosition, uTexture := stage'.uTexture)
    ensures gl.attached.Keys == old(gl.attached).Keys
    ensures forall p :: p in gl.attached && p != stage.program ==> gl.attached[p] == old(gl.attached)[p]
    ensures gl.linked - {stage.program} == old(gl.linked) - {stage.program}
    ensures old(gl.attached)[stage.program] == Gl.Slots(0, 0) ==>
      && gl.error == (old(gl.error) || LinkFails(gl, o, f, width, height))
      && Rebuilt(gl, gl.linked, stage', stage, old(gl.linked), o, f, width, height)
  {
    stage' := AttachShaders(gl, stage, Shaders.FactorDefine(f), Shaders.OrientationDefine(o), width, height);
  }

  /**
   * The allocations of the constructor: a nearest-filtered texture for the
   * width stage, a linear-filtered one for the height stage, two
   * framebuffers, two empty programs and the bound vertex buffer.
   */
  method AllocateStages(gl: Gl.Context) returns (ws: Framebuffer, hs: Framebuffer, buffer: nat)
    requires gl.Valid()
    modifies gl`texture, gl`textures, gl`lastTexture, gl`lastFramebuffer, gl`attached, gl`lastObject
    modifies gl`lastBuffer, gl`arrayBuffer
    ensures gl.Valid() && StagesValid(gl, ws, hs)
    ensures ws.texture !in old(gl.textures) && hs.texture !in old(gl.textures)
    ensures gl.textures == old(gl.textures)[ws.texture := Gl.DefaultTexture.(minFilter := Gl.NEAREST, magFilter := Gl.NEAREST)]
                                           [hs.texture := Gl.DefaultTexture.(minFilter := Gl.LINEAR, magFilter := Gl.LINEAR)]
    ensures ws.program !in old(gl.attached) && hs.program !in old(gl.attached)
    ensures gl.attached == old(gl.attached)[ws.program := Gl.Slots(0, 0)][hs.program := Gl.Slots(0, 0)]
    ensures ws.program !in gl.linked && hs.program !in gl.linked
    ensures ws.aPosition == -1 && ws.uTexture == -1 && hs.aPosition == -1 && hs.uTexture == -1
    ensures gl.arrayBuffer == buffer
  {
    var texW, texH := NewTextures(gl);
    var fbW := gl.GenFramebuffer();
    var fbH := gl.GenFramebuffer();
    var progW, progH := NewPrograms(gl);
    buffer := gl.GenBuffer();
    gl.BindBuffer(buffer);
    ws := Framebuffer(texW, fbW, progW, -1, -1);
    hs := Framebuffer(texH, fbH, progH, -1, -1);
  }

  /** The stage textures of the constructor: nearest filtering for the width stage, linear for the height stage. */
  method NewTextures(gl: Gl.Context) returns (texW: nat, texH: nat)
    requires gl.BindingsValid()
    modifies gl`texture, gl`textures, gl`lastTexture
    ensures gl.BindingsValid()
    ensures texW != 0 && texH != 0 && texW != texH
    ensures texW !in old(gl.textures) && texH !in old(gl.textures)
    ensures gl.textures == old(gl.textures)[texW := Gl.DefaultTexture.(minFilter := Gl.NEAREST, magFilter := Gl.NEAREST)]
                                           [texH := Gl.DefaultTexture.(minFilter := Gl.LINEAR, magFilter := Gl.LINEAR)]
  {
    texW := NewTexture(gl, Gl.NEAREST);
    texH := NewTexture(gl, Gl.LINEAR);
  }

  /** The stage programs of the constructor: two new programs with no shaders. */
  method NewPrograms(gl: Gl.Context) returns (progW: nat, progH: nat)
    requires gl.ObjectsValid()
    modifies gl`attached, gl`lastObject
    ensures gl.ObjectsValid()
    ensures progW != 0 && progH != 0 && progW != progH
    ensures progW !in old(gl.attached) && progH !in old(gl.attached)
    ensures progW !in gl.linked && progH !in gl.linked
    ensures gl.attached == old(gl.attached)[progW := Gl.Slots(0, 0)][progH := Gl.Slots(0, 0)]
  {
    progW := gl.CreateProgram();
    progH := gl.CreateProgram();
  }

  /** The factor update selects for a `width` x `height` source in viewport `v`. */
  function SelectedFactor(width: nat, height: nat, v: Gl.Viewport): nat {
    Factor.BestFactor(width, height, Factor.Target(width, height, v.width, v.height).0,
                      Factor.Target(width, height, v.width, v.height).1)
  }

  /**
   * Every texture and every colour attachment outside the two stages is as
   * it was: the resizer changes only its own stages' objects, never its
   * input texture.
   */
  ghost predicate OthersKept(textures: map<nat, Gl.TexInfo>, textures0: map<nat, Gl.TexInfo>,
                             attachments: map<nat, nat>, attachments0: map<nat, nat>,
                             ws: Framebuffer, hs: Framebuffer)
  {
    && textures - {ws.texture, hs.texture} == textures0 - {ws.texture, hs.texture}
    && attachments - {ws.framebuffer, hs.framebuffer} == attachments0 - {ws.framebuffer, hs.framebuffer}
  }

  /** OthersKept, one texture at a time: a texture other than the stages' keeps its size and filters. */
  lemma KeptTexture(textures: map<nat, Gl.TexInfo>, textures0: map<nat, Gl.TexInfo>,
                    attachments: map<nat, nat>, attachments0: map<nat, nat>,
                    ws: Framebuffer, hs: Framebuffer, t: nat)
    requires OthersKept(textures, textures0, attachments, attachments0, ws, hs)
    requires t in textures0 && t != ws.texture && t != hs.texture
    ensures t in textures && textures[t] == textures0[t]
  {
    assert t in textures0 - {ws.texture, hs.texture};
    assert (textures - {ws.texture, hs.texture})[t] == textures0[t];
  }

  /** Binding `t` in both tables, as the passes do with their input, keeps OthersKept. */
  lemma KeptWithTexture(textures: map<nat, Gl.TexInfo>, textures0: map<nat, Gl.TexInfo>,
                        attachments: map<nat, nat>, attachments0: map<nat, nat>,
                        ws: Framebuffer, hs: Framebuffer, t: nat)
    requires OthersKept(textures, textures0, attachments, attachments0, ws, hs)
    requires ws.texture in textures && hs.texture in textures && ws.texture in textures0 && hs.texture in textures0
    ensures OthersKept(Gl.WithTexture(textures, t), Gl.WithTexture(textures0, t), attachments, attachments0, ws, hs)
  {
    var stages := {ws.texture, hs.texture};
    if t !in stages && t !in textures {
      assert t !in textures - stages;
      assert t !in textures0;
      assert textures[t := Gl.DefaultTexture] - stages == (textures - stages)[t := Gl.DefaultTexture];
      assert textures0[t := Gl.DefaultTexture] - stages == (textures0 - stages)[t := Gl.DefaultTexture];
    } else if t !in stages {
      assert t in textures - stages;
    }
  }

  /** The two passes raise a GL error. */
  ghost predicate Faults(gl: Gl.Context, ws: Framebuffer, hs: Framebuffer)
    reads gl`linked, gl`colorAttachments, gl`textures
  {
    !Ready(gl, ws) || !Ready(gl, hs)
  }

  /**
   * setupFramebuffers on the stages configured for `factor`: nothing when
   * `f` is that factor; otherwise both stages sized and attached for `f`
   * and both programs rebuilt, whether or not the shaders compiled.
   */
  method SetupStages(gl: Gl.Context, ws: Framebuffer, hs: Framebuffer, factor: nat, f: nat, width: nat, height: nat)
    returns (ws': Framebuffer, hs': Framebuffer)
    requires Invariant(gl, ws, hs, factor, width, height) && f >= 1
    modifies gl`texture, gl`textures, gl`lastTexture, gl`framebuffer, gl`colorAttachments, gl`error
    modifies gl`attached, gl`shaders, gl`lastObject, gl`linked, gl`program
    ensures Invariant(gl, ws', hs', f, width, height)
    ensures OthersKept(gl.textures, old(gl.textures), gl.colorAttachments, old(gl.colorAttachments), ws, hs)
    ensures f == factor ==> ws' == ws && hs' == hs && unchanged(gl)
    ensures f != factor ==> gl.texture == hs'.texture && gl.framebuffer == hs'.framebuffer
    ensures f != factor && !old(gl.error) ==>
      && gl.error == (LinkFails(gl, Shaders.Horizontal, f, width, height) || LinkFails(gl, Shaders.Vertical, f, width, height))
      && StagesRebuilt(gl, gl.linked, ws', hs', ws, hs, old(gl.linked), f, width, height)
  {
    if f == factor {
      return ws, hs;
    }
    ws', hs' := Reconfigure(gl, ws, hs, f, width, height);
  }

  /** setupFramebuffers after its early return: both stages sized and attached for `f`, both programs rebuilt. */
  method Reconfigure(gl: Gl.Context, ws: Framebuffer, hs: Framebuffer, f: nat, width: nat, height: nat)
    returns (ws': Framebuffer, hs': Framebuffer)
    requires gl.Valid() && StagesValid(gl, ws, hs) && f >= 1
    modifies gl`texture, gl`textures, gl`lastTexture, gl`framebuffer, gl`colorAttachments, gl`error
    modifies gl`attached, gl`shaders, gl`lastObject, gl`linked, gl`program
    ensures Invariant(gl, ws', hs', f, width, height)
    ensures OthersKept(gl.textures, old(gl.textures), gl.colorAttachments, old(gl.colorAttachments), ws, hs)
    ensures gl.texture == hs'.texture && gl.framebuffer == hs'.framebuffer
    ensures !old(gl.error) ==>
      && gl.error == (LinkFails(gl, Shaders.Horizontal, f, width, height) || LinkFails(gl, Shaders.Vertical, f, width, height))
      && StagesRebuilt(gl, gl.linked, ws', hs', ws, hs, old(gl.linked), f, width, height)
  {
    SizeStages(gl, ws, hs, width / f, height, height / f);
    ws', hs' := RebuildPrograms(gl, ws, hs, f, width, height);
  }

  /**
   * update on the stages configured for `factor`: the texture to present
   * and the new stages and factor. With factor 1 the input, untouched;
   * otherwise as Rescale says.
   */
  method Present(gl: Gl.Context, vertexBuffer: nat, ws: Framebuffer, hs: Framebuffer, factor: nat,
                 width: nat, height: nat, texture: nat)
    returns (result: nat, ws': Framebuffer, hs': Framebuffer, factor': nat)
    requires Invariant(gl, ws, hs, factor, width, height)
    modifies gl`arrayBuffer, gl`framebuffer, gl`viewport, gl`program, gl`texture, gl`textures, gl`lastTexture
    modifies gl`draws, gl`error, gl`colorAttachments, gl`attached, gl`shaders, gl`lastObject, gl`linked
    ensures Invariant(gl, ws', hs', factor', width, height)
    ensures SelectedFactor(width, height, old(gl.viewport)) == 1 ==>
      result == texture && factor' == factor && ws' == ws && hs' == hs && unchanged(gl)
    ensures SelectedFactor(width, height, old(gl.viewport)) > 1 ==>
      && factor' == SelectedFactor(width, height, old(gl.viewport))
      && Presented(gl, ws', hs', factor', width, height, texture, result,
                   old(gl.viewport), old(gl.draws), old(gl.textures), old(gl.colorAttachments), ws, hs)
    // an unchanged factor rebuilds nothing
    ensures SelectedFactor(width, height, old(gl.viewport)) == factor > 1 ==>
      && ws' == ws && hs' == hs
      && gl.linked == old(gl.linked) && gl.attached == old(gl.attached) && gl.shaders == old(gl.shaders)
    // a new factor rebuilds both stages
    ensures 1 < SelectedFactor(width, height, old(gl.viewport)) != factor ==>
      StagesRebuilt(gl, gl.linked, ws', hs', ws, hs, old(gl.linked), factor', width, height)
  {
    var vport := gl.GetViewport();
    var f := Factor.SelectFactor(width, height, vport.width, vport.height);
    if f == 1 {
      return texture, ws, hs, factor;
    }
    result, ws', hs' := Rescale(gl, vertexBuffer, ws, hs, factor, f, width, height, texture, vport);
    factor' := f;
    if texture in old(gl.textures) && texture != ws.texture && texture != hs.texture {
      KeptTexture(gl.textures, Gl.WithTexture(old(gl.textures), texture), gl.colorAttachments, old(gl.colorAttachments),
                  ws, hs, texture);
    }
  }

  /**
   * update once it has chosen a factor `f` above 1 for the viewport `vport`:
   * the stages set up for `f`, the two passes, the viewport restored; the
   * height stage's texture, or the input when the passes raised a GL error.
   */
  method Rescale(gl: Gl.Context, vertexBuffer: nat, ws: Framebuffer, hs: Framebuffer, factor: nat, f: nat,
                 width: nat, height: nat, texture: nat, vport: Gl.Viewport)
    returns (result: nat, ws': Framebuffer, hs': Framebuffer)
    requires Invariant(gl, ws, hs, factor, width, height) && f > 1 && vport == gl.viewport
    modifies gl`arrayBuffer, gl`framebuffer, gl`viewport, gl`program, gl`texture, gl`textures, gl`lastTexture
    modifies gl`draws, gl`error, gl`colorAttachments, gl`attached, gl`shaders, gl`lastObject, gl`linked
    ensures Invariant(gl, ws', hs', f, width, height)
    ensures OthersKept(gl.textures, Gl.WithTexture(old(gl.textures), texture),
                       gl.colorAttachments, old(gl.colorAttachments), ws, hs)
    ensures gl.viewport == vport
    ensures gl.framebuffer == 0 && gl.texture == 0 && gl.arrayBuffer == 0 && !gl.error
    ensures result == (if Faults(gl, ws', hs') then texture else hs'.texture)
    ensures !Faults(gl, ws', hs') ==>
      gl.draws == old(gl.draws) + [WidthPass(ws', width / f, height, ws'.program, texture),
                                   HeightPass(ws', hs', width / f, height / f, hs'.program)]
    ensures f == factor ==>
      && ws' == ws && hs' == hs
      && gl.linked == old(gl.linked) && gl.attached == old(gl.attached) && gl.shaders == old(gl.shaders)
    ensures f != factor ==>
      && StagesRebuilt(gl, gl.linked, ws', hs', ws, hs, old(gl.linked), f, width, height)
  {
    var _ := gl.GetError();
    ws', hs' := Render(gl, vertexBuffer, ws, hs, factor, f, width, height, texture);
    var failed := Restore(gl, vport);
    if failed {
      return texture, ws', hs';
    }
    result := hs'.texture;
  }

  /** The end of update: the saved viewport set back, then the GL error flag read and cleared. */
  method Restore(gl: Gl.Context, vport: Gl.Viewport) returns (failed: bool)
    modifies gl`viewport, gl`error
    ensures gl.viewport == vport && failed == old(gl.error) && !gl.error
  {
    gl.SetViewport(vport.x, vport.y, vport.width, vport.height);
    failed := gl.GetError();
  }

  /**
   * The middle of update, once pending errors are cleared: the stages set
   * up for `f`, then both passes; the GL error flag is left raised exactly
   * when a stage was not ready to render.
   */
  method Render(gl: Gl.Context, vertexBuffer: nat, ws: Framebuffer, hs: Framebuffer, factor: nat, f: nat,
                width: nat, height: nat, texture: nat)
    returns (ws': Framebuffer, hs': Framebuffer)
    requires Invariant(gl, ws, hs, factor, width, height) && f > 1 && !gl.error
    modifies gl`arrayBuffer, gl`framebuffer, gl`viewport, gl`program, gl`texture, gl`textures, gl`lastTexture
    modifies gl`draws, gl`error, gl`colorAttachments, gl`attached, gl`shaders, gl`lastObject, gl`linked
    ensures Invariant(gl, ws', hs', f, width, height)
    ensures OthersKept(gl.textures, Gl.WithTexture(old(gl.textures), texture),
                       gl.colorAttachments, old(gl.colorAttachments), ws, hs)
    ensures gl.framebuffer == 0 && gl.texture == 0 && gl.arrayBuffer == 0
    ensures gl.error == Faults(gl, ws', hs')
    ensures !Faults(gl, ws', hs') ==>
      gl.draws == old(gl.draws) + [WidthPass(ws', width / f, height, ws'.program, texture),
                                   HeightPass(ws', hs', width / f, height / f, hs'.program)]
    ensures f == factor ==>
      && ws' == ws && hs' == hs
      && gl.linked == old(gl.linked) && gl.attached == old(gl.attached) && gl.shaders == old(gl.shaders)
    ensures f != factor ==>
      && StagesRebuilt(gl, gl.linked, ws', hs', ws, hs, old(gl.linked), f, width, height)
  {
    ws', hs' := SetupStages(gl, ws, hs, factor, f, width, height);
    KeptWithTexture(gl.textures, old(gl.textures), gl.colorAttachments, old(gl.colorAttachments), ws, hs, texture);
    ResizePasses(gl, vertexBuffer, ws', hs', f, width, height, texture);
  }

  /**
   * resize on the stages configured for `factor`: the two passes, leaving
   * the input texture's filters as they were and the buffer, framebuffer
   * and texture bindings cleared.
   */
  method ResizePasses(gl: Gl.Context, vertexBuffer: nat, ws: Framebuffer, hs: Framebuffer, factor: nat,
                      width: nat, height: nat, texture: nat)
    requires Invariant(gl, ws, hs, factor, width, height)
    modifies gl`arrayBuffer, gl`framebuffer, gl`viewport, gl`program, gl`texture, gl`textures, gl`lastTexture
    modifies gl`draws, gl`error
    ensures Invariant(gl, ws, hs, factor, width, height)
    ensures gl.viewport == Gl.Viewport(0, 0, width / factor, height / factor)
    ensures gl.arrayBuffer == 0 && gl.framebuffer == 0 && gl.texture == 0
    ensures gl.textures == if texture in old(gl.textures) then old(gl.textures)
                           else old(gl.textures)[texture := Gl.DefaultTexture]
    ensures gl.error == (old(gl.error) || Faults(gl, ws, hs))
    ensures gl.draws == old(gl.draws) + PassDraws(gl, ws, hs, width / factor, height, height / factor,
                                                  texture, old(gl.program))
    ensures !Faults(gl, ws, hs) ==>
      gl.draws == old(gl.draws) + [WidthPass(ws, width / factor, height, ws.program, texture),
                                   HeightPass(ws, hs, width / factor, height / factor, hs.program)]
  {
    ghost var previous := gl.program;
    RunPasses(gl, vertexBuffer, ws, hs, width / factor, height, height / factor, texture);
    if !Faults(gl, ws, hs) {
      ReadyPassDraws(gl, ws, hs, width / factor, height, height / factor, texture, previous);
    }
  }

  class TextureResize {
    const gl: Gl.Context
    const width: nat          // mWidth
    const height: nat         // mHeight
    const vertexBuffer: nat   // mVertexBuffer
    var factor: nat           // mFactor
    var widthStage: Framebuffer   // mFBWidth
    var heightStage: Framebuffer  // mFBHeight

    ghost predicate Valid()
      reads this`factor, this`widthStage, this`heightStage, gl`texture, gl`textures, gl`lastTexture,
        gl`shaders, gl`attached, gl`linked, gl`lastObject, gl`colorAttachments
    {
      Invariant(gl, widthStage, heightStage, factor, width, height)
    }

    /** The constructor: both stages allocated, nothing configured, mFactor == 1. */
    constructor (gl: Gl.Context, width: nat, height: nat)
      requires gl.Valid()
      modifies gl`texture, gl`textures, gl`lastTexture, gl`lastFramebuffer, gl`attached, gl`lastObject
      modifies gl`lastBuffer, gl`arrayBuffer
      ensures Valid()
      ensures this.gl == gl && this.width == width && this.height == height && factor == 1
      ensures widthStage.program !in gl.linked && heightStage.program !in gl.linked
      ensures gl.attached[widthStage.program] == Gl.Slots(0, 0) && gl.attached[heightStage.program] == Gl.Slots(0, 0)
      ensures gl.arrayBuffer == vertexBuffer
    {
      var ws, hs, buffer := AllocateStages(gl);
      this.gl := gl;
      this.width := width;
      this.height := height;
      vertexBuffer := buffer;
      factor := 1;
      widthStage := ws;
      heightStage := hs;
    }

    /** update: see Present. */
    method Update(texture: nat) returns (result: nat)
      requires Valid()
      modifies this`factor, this`widthStage, this`heightStage
      modifies gl`arrayBuffer, gl`framebuffer, gl`viewport, gl`program, gl`texture, gl`textures, gl`lastTexture
      modifies gl`draws, gl`error, gl`colorAttachments, gl`attached, gl`shaders, gl`lastObject, gl`linked
      ensures Valid()
      ensures SelectedFactor(width, height, old(gl.viewport)) == 1 ==>
        && result == texture
        && factor == old(factor) && widthStage == old(widthStage) && heightStage == old(heightStage)
        && unchanged(gl)
      ensures SelectedFactor(width, height, old(gl.viewport)) > 1 ==>
        && factor == SelectedFactor(width, height, old(gl.viewport))
        && Presented(gl, widthStage, heightStage, factor, width, height, texture, result,
                     old(gl.viewport), old(gl.draws), old(gl.textures), old(gl.colorAttachments),
                     old(widthStage), old(heightStage))
      // an unchanged factor rebuilds nothing
      ensures SelectedFactor(width, height, old(gl.viewport)) == old(factor) > 1 ==>
        && widthStage == old(widthStage) && heightStage == old(heightStage)
        && gl.linked == old(gl.linked) && gl.attached == old(gl.attached) && gl.shaders == old(gl.shaders)
      // a new factor rebuilds both stages
      ensures 1 < SelectedFactor(width, height, old(gl.viewport)) != old(factor) ==>
        StagesRebuilt(gl, gl.linked, widthStage, heightStage, old(widthStage), old(heightStage), old(gl.linked),
                      factor, width, height)
    {
      var ws, hs, f;
      result, ws, hs, f := Present(gl, vertexBuffer, widthStage, heightStage, factor, width, height, texture);
      Store(ws, hs, f);
    }

    /** The new stages and factor, saved in the object's fields. */
    method Store(ws: Framebuffer, hs: Framebuffer, f: nat)
      requires Invariant(gl, ws, hs, f, width, height)
      modifies this`factor, this`widthStage, this`heightStage
      ensures Valid() && widthStage == ws && heightStage == hs && factor == f
    {
      widthStage, heightStage, factor := ws, hs, f;
    }

    /** setupFramebuffers: see SetupStages. */
    method SetupFramebuffers(f: nat)
      requires Valid() && f >= 1
      modifies this`factor, this`widthStage, this`heightStage
      modifies gl`texture, gl`textures, gl`lastTexture, gl`framebuffer, gl`colorAttachments, gl`error
      modifies gl`attached, gl`shaders, gl`lastObject, gl`linked, gl`program
      ensures Valid() && factor == f
      ensures OthersKept(gl.textures, old(gl.textures), gl.colorAttachments, old(gl.colorAttachments),
                         old(widthStage), old(heightStage))
      ensures f == old(factor) ==> widthStage == old(widthStage) && heightStage == old(heightStage) && unchanged(gl)
      ensures f != old(factor) ==> gl.texture == heightStage.texture && gl.framebuffer == heightStage.framebuffer
      ensures f != old(factor) && !old(gl.error) ==>
        && gl.error == (LinkFails(gl, Shaders.Horizontal, f, width, height) || LinkFails(gl, Shaders.Vertical, f, width, height))
        && StagesRebuilt(gl, gl.linked, widthStage, heightStage, old(widthStage), old(heightStage), old(gl.linked),
                         f, width, height)
    {
      var ws, hs := SetupStages(gl, widthStage, heightStage, factor, f, width, height);
      Store(ws, hs, f);
    }

    /**
     * resize: the two passes, leaving the input texture's filters as they
     * were and the buffer, framebuffer and texture bindings cleared.
     */
    method Resize(texture: nat)
      requires Valid()
      modifies gl`arrayBuffer, gl`framebuffer, gl`viewport, gl`program, gl`texture, gl`textures, gl`lastTexture
      modifies gl`draws, gl`error
      ensures Valid()
      ensures gl.viewport == Gl.Viewport(0, 0, width / factor, height / factor)
      ensures gl.arrayBuffer == 0 && gl.framebuffer == 0 && gl.texture == 0
      ensures gl.textures == if texture in old(gl.textures) then old(gl.textures)
                             else old(gl.textures)[texture := Gl.DefaultTexture]
      ensures gl.error == (old(gl.error) || Faults(gl, widthStage, heightStage))
      ensures gl.draws == old(gl.draws) + PassDraws(gl, widthStage, heightStage, width / factor, height,
                                                    height / factor, texture, old(gl.program))
    {
      ResizePasses(gl, vertexBuffer, widthStage, heightStage, factor, width, height, texture);
    }
  }
}
