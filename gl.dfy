/**
 * An abstract OpenGL ES 2.0 context: the part of the server state that the
 * texture resizer reads and writes, with one method per GL entry point it
 * calls. Errors follow the ES 2.0 rules for the cases the resizer can reach;
 * the error flag is sticky until glGetError reads and clears it.
 */
module Gl {
  import Shaders

  /** GL_NEAREST, GL_LINEAR and GL_NEAREST_MIPMAP_LINEAR. */
  const NEAREST: int := 0x2600
  const LINEAR: int := 0x2601
  const NEAREST_MIPMAP_LINEAR: int := 0x2702

  /** GL_MAX_VERTEX_ATTRIBS is at least 8 in every ES 2.0 implementation. */
  const MinVertexAttribs: nat := 8

  /** The viewport rectangle; glViewport never stores a negative size. */
  datatype Viewport = Viewport(x: int, y: int, width: nat, height: nat)

  /** Level-0 size and the two filters of a texture object. */
  datatype TexInfo = TexInfo(width: int, height: int, minFilter: int, magFilter: int)

  /** A texture object as glBindTexture creates it. */
  const DefaultTexture: TexInfo := TexInfo(0, 0, NEAREST_MIPMAP_LINEAR, LINEAR)

  /** The texture table once `t` has been bound: glBindTexture creates a name it has not seen. */
  function WithTexture(textures: map<nat, TexInfo>, t: nat): map<nat, TexInfo> {
    if t in textures then textures else textures[t := DefaultTexture]
  }

  datatype TexParam = MagFilter | MinFilter

  function GetParam(t: TexInfo, pname: TexParam): int {
    match pname
    case MagFilter => t.magFilter
    case MinFilter => t.minFilter
  }

  function SetParam(t: TexInfo, pname: TexParam, value: int): TexInfo {
    match pname
    case MagFilter => t.(magFilter := value)
    case MinFilter => t.(minFilter := value)
  }

  datatype ShaderKind = VertexKind | FragmentKind

  datatype Shader = Shader(kind: ShaderKind, source: seq<Shaders.SourcePart>, compiled: bool)

  /** The shaders attached to a program, one slot per kind; 0 is an empty slot. */
  datatype Slots = Slots(vertex: nat, fragment: nat)

  /** The shaders attached to a program, as glGetAttachedShaders lists them. */
  function Occupied(sl: Slots): seq<nat> {
    (if sl.vertex != 0 then [sl.vertex] else []) + (if sl.fragment != 0 then [sl.fragment] else [])
  }

  /** `sl` with `s` put in the slot of its kind. */
  function Attached(sl: Slots, kind: ShaderKind, s: nat): Slots {
    match kind
    case VertexKind => sl.(vertex := s)
    case FragmentKind => sl.(fragment := s)
  }

  /** `sl` with `s` taken out of whichever slot holds it. */
  function Detached(sl: Slots, s: nat): Slots {
    Slots(if sl.vertex == s then 0 else sl.vertex, if sl.fragment == s then 0 else sl.fragment)
  }

  /** Some program in `attached` holds `s`. */
  predicate AttachedIn(attached: map<nat, Slots>, s: nat) {
    exists p :: p in attached && (attached[p].vertex == s || attached[p].fragment == s)
  }

  /** Changing one program's slots keeps every shader that neither its old nor its new slots hold. */
  lemma AttachedInUpdate(attached: map<nat, Slots>, p: nat, sl: Slots, s: nat)
    requires p in attached ==> attached[p].vertex != s && attached[p].fragment != s
    requires sl.vertex != s && sl.fragment != s
    ensures AttachedIn(attached[p := sl], s) == AttachedIn(attached, s)
  {
    if AttachedIn(attached, s) {
      var q :| q in attached && (attached[q].vertex == s || attached[q].fragment == s);
      assert q != p;
      assert q in attached[p := sl] && attached[p := sl][q] == attached[q];
    }
    if AttachedIn(attached[p := sl], s) {
      var q :| q in attached[p := sl] && (attached[p := sl][q].vertex == s || attached[p := sl][q].fragment == s);
      assert q != p;
    }
  }

  function Min(a: nat, b: nat): nat {
    if a < b then a else b
  }

  /** The sources a successfully linked program runs. */
  datatype Executable = Executable(vertex: seq<Shaders.SourcePart>, fragment: seq<Shaders.SourcePart>)

  /** One glDrawArrays call that rendered: where, through which program, sampling what. */
  datatype Draw = Draw(framebuffer: nat, viewport: Viewport, program: nat,
                       texture: nat, minFilter: int, magFilter: int, count: nat)

  class Context {
    var viewport: Viewport
    var framebuffer: nat              // GL_FRAMEBUFFER binding
    var texture: nat                  // GL_TEXTURE_2D binding of the active unit
    var arrayBuffer: nat              // GL_ARRAY_BUFFER binding
    var program: nat                  // current program
    var textures: map<nat, TexInfo>
    var colorAttachments: map<nat, nat>
    var shaders: map<nat, Shader>
    var attached: map<nat, Slots>     // the program objects and their shaders
    var linked: map<nat, Executable>  // the programs whose last link succeeded
    var error: bool
    var draws: seq<Draw>
    // The last name handed out in each namespace; shaders and programs share one.
    var lastTexture: nat
    var lastFramebuffer: nat
    var lastBuffer: nat
    var lastObject: nat
    /** The driver's verdict on a shader source: the compile oracle. */
    const compiles: (ShaderKind, seq<Shaders.SourcePart>) -> bool
    /** The driver's verdict on linking a compiled vertex and fragment source: the link oracle. */
    const links: (seq<Shaders.SourcePart>, seq<Shaders.SourcePart>) -> bool
    const maxVertexAttribs: nat

    /** The default and the bound texture exist, and no texture name is beyond the last one handed out. */
    ghost predicate BindingsValid()
      reads this`texture, this`textures, this`lastTexture
    {
      && 0 in textures && texture in textures
      && (forall t :: t in textures ==> t <= lastTexture)
    }

    ghost predicate SlotsValid(sl: Slots)
      reads this`shaders
    {
      && (sl.vertex != 0 ==> sl.vertex in shaders && shaders[sl.vertex].kind == VertexKind)
      && (sl.fragment != 0 ==> sl.fragment in shaders && shaders[sl.fragment].kind == FragmentKind)
    }

    /** Shader and program names are allocated, and attached shaders exist and sit in their kind's slot. */
    ghost predicate ObjectsValid()
      reads this`shaders, this`attached, this`linked, this`lastObject
    {
      && (forall s :: s in shaders ==> 0 < s <= lastObject)
      && (forall p :: p in attached ==> 0 < p <= lastObject && SlotsValid(attached[p]))
      && linked.Keys <= attached.Keys
    }

    ghost predicate Valid()
      reads this`texture, this`textures, this`lastTexture
      reads this`shaders, this`attached, this`linked, this`lastObject
    {
      BindingsValid() && ObjectsValid() && maxVertexAttribs >= MinVertexAttribs
    }

    /** `s` is attached to some program (its deletion is then deferred). */
    predicate AttachedAnywhere(s: nat)
      reads this`attached
    {
      AttachedIn(attached, s)
    }

    /** An attribute index glEnableVertexAttribArray accepts. */
    predicate ValidAttrib(index: int) {
      0 <= index < maxVertexAttribs
    }

    /** A framebuffer object with a non-empty color texture attached. */
    predicate Complete(fb: nat)
      reads this`colorAttachments, this`textures
    {
      && fb in colorAttachments
      && colorAttachments[fb] != 0
      && colorAttachments[fb] in textures
      && textures[colorAttachments[fb]].width > 0
      && textures[colorAttachments[fb]].height > 0
    }

    /** glAttachShader accepts `s` for `p`: both exist and `p` has no shader of that kind yet. */
    predicate CanAttach(p: nat, s: nat)
      reads this`attached, this`shaders
    {
      && p in attached && s in shaders
      && match shaders[s].kind
         case VertexKind => attached[p].vertex == 0
         case FragmentKind => attached[p].fragment == 0
    }

    /** `s` is one of the shaders attached to `p`. */
    predicate IsAttachedTo(p: nat, s: nat)
      reads this`attached
    {
      p in attached && s != 0 && (attached[p].vertex == s || attached[p].fragment == s)
    }

    /** glLinkProgram succeeds on `p`: a compiled shader of each kind is attached and the driver links them. */
    predicate Linkable(p: nat)
      reads this`attached, this`shaders
      requires p in attached
    {
      && attached[p].vertex != 0 && attached[p].fragment != 0
      && attached[p].vertex in shaders && attached[p].fragment in shaders
      && shaders[attached[p].vertex].compiled && shaders[attached[p].fragment].compiled
      && links(shaders[attached[p].vertex].source, shaders[attached[p].fragment].source)
    }

    /** What a successful link of `p` runs: the sources of its attached shaders. */
    function Linked(p: nat): Executable
      reads this`attached, this`shaders
      requires p in attached && Linkable(p)
    {
      Executable(shaders[attached[p].vertex].source, shaders[attached[p].fragment].source)
    }

    /** A fresh context: nothing bound, only the default texture. */
    constructor (compiles: (ShaderKind, seq<Shaders.SourcePart>) -> bool,
                 links: (seq<Shaders.SourcePart>, seq<Shaders.SourcePart>) -> bool,
                 maxVertexAttribs: nat, viewport: Viewport)
      requires maxVertexAttribs >= MinVertexAttribs
      ensures Valid()
      ensures this.compiles == compiles && this.links == links && this.maxVertexAttribs == maxVertexAttribs
      ensures this.viewport == viewport
      ensures framebuffer == 0 && texture == 0 && arrayBuffer == 0 && program == 0
      ensures textures == map[0 := DefaultTexture] && colorAttachments == map[]
      ensures shaders == map[] && attached == map[] && linked == map[]
      ensures !error && draws == []
    {
      this.viewport := viewport;
      framebuffer, texture, arrayBuffer, program := 0, 0, 0, 0;
      textures := map[0 := DefaultTexture];
      colorAttachments, shaders, attached, linked := map[], map[], map[], map[];
      error, draws := false, [];
      lastTexture, lastFramebuffer, lastBuffer, lastObject := 0, 0, 0, 0;
      this.compiles := compiles;
      this.links := links;
      this.maxVertexAttribs := maxVertexAttribs;
    }

    /** glGetError: the flag, which is then cleared. */
    method GetError() returns (failed: bool)
      modifies this`error
      ensures failed == old(error) && !error
    {
      failed := error;
      error := false;
    }

    /** glGetIntegerv(GL_VIEWPORT). */
    method GetViewport() returns (v: Viewport)
      ensures v == viewport
    {
      v := viewport;
    }

    /** glViewport: a negative size is GL_INVALID_VALUE. */
    method SetViewport(x: int, y: int, width: int, height: int)
      modifies this`viewport, this`error
      ensures viewport == if width < 0 || height < 0 then old(viewport) else Viewport(x, y, width, height)
      ensures error == (old(error) || width < 0 || height < 0)
    {
      if width < 0 || height < 0 {
        error := true;
      } else {
        viewport := Viewport(x, y, width, height);
      }
    }

    /** glGenTextures: one texture name not in use. */
    method GenTexture() returns (name: nat)
      requires BindingsValid()
      modifies this`lastTexture
      ensures BindingsValid()
      ensures name == old(lastTexture) + 1 && lastTexture == name
      ensures name !in textures
    {
      name := lastTexture + 1;
      lastTexture := name;
    }

    /** glGenFramebuffers: one framebuffer name not handed out before. */
    method GenFramebuffer() returns (name: nat)
      modifies this`lastFramebuffer
      ensures name == old(lastFramebuffer) + 1 && lastFramebuffer == name
    {
      name := lastFramebuffer + 1;
      lastFramebuffer := name;
    }

    /** glGenBuffers: one buffer name not handed out before. */
    method GenBuffer() returns (name: nat)
      modifies this`lastBuffer
      ensures name == old(lastBuffer) + 1 && lastBuffer == name
    {
      name := lastBuffer + 1;
      lastBuffer := name;
    }

    /** glBindTexture(GL_TEXTURE_2D): the first bind of a name creates the texture. */
    method BindTexture(t: nat)
      requires BindingsValid()
      modifies this`texture, this`textures, this`lastTexture
      ensures BindingsValid()
      ensures texture == t
      ensures textures == if t in old(textures) then old(textures) else old(textures)[t := DefaultTexture]
    {
      if t !in textures {
        textures := textures[t := DefaultTexture];
        if t > lastTexture {
          lastTexture := t;
        }
      }
      texture := t;
    }

    /** glTexParameteri on the bound texture. */
    method TexParameter(pname: TexParam, value: int)
      requires BindingsValid()
      modifies this`textures
      ensures BindingsValid()
      ensures textures == old(textures)[texture := SetParam(old(textures)[texture], pname, value)]
    {
      textures := textures[texture := SetParam(textures[texture], pname, value)];
    }

    /** glGetTexParameteriv on the bound texture. */
    method GetTexParameter(pname: TexParam) returns (value: int)
      requires BindingsValid()
      ensures value == GetParam(textures[texture], pname)
    {
      value := GetParam(textures[texture], pname);
    }

    /** glTexImage2D, level 0, no data: a negative size is GL_INVALID_VALUE. */
    method TexImage2D(width: int, height: int)
      requires BindingsValid()
      modifies this`textures, this`error
      ensures BindingsValid()
      ensures textures == if width < 0 || height < 0 then old(textures)
                          else old(textures)[texture := old(textures)[texture].(width := width, height := height)]
      ensures error == (old(error) || width < 0 || height < 0)
    {
      if width < 0 || height < 0 {
        error := true;
      } else {
        textures := textures[texture := textures[texture].(width := width, height := height)];
      }
    }

    /** glBindFramebuffer(GL_FRAMEBUFFER). */
    method BindFramebuffer(fb: nat)
      modifies this`framebuffer
      ensures framebuffer == fb
    {
      framebuffer := fb;
    }

    /** glFramebufferTexture2D(GL_COLOR_ATTACHMENT0): the default framebuffer has no attachments. */
    method FramebufferTexture2D(t: nat)
      modifies this`colorAttachments, this`error
      ensures colorAttachments == if framebuffer == 0 then old(colorAttachments) else old(colorAttachments)[framebuffer := t]
      ensures error == (old(error) || framebuffer == 0)
    {
      if framebuffer == 0 {
        error := true;
      } else {
        colorAttachments := colorAttachments[framebuffer := t];
      }
    }

    /** glBindBuffer(GL_ARRAY_BUFFER). */
    method BindBuffer(b: nat)
      modifies this`arrayBuffer
      ensures arrayBuffer == b
    {
      arrayBuffer := b;
    }

    /** glCreateProgram: a new program with no shaders attached. */
    method CreateProgram() returns (p: nat)
      requires ObjectsValid()
      modifies this`attached, this`lastObject
      ensures ObjectsValid()
      ensures p == old(lastObject) + 1 && lastObject == p
      ensures p !in old(attached) && p !in linked && p !in shaders
      ensures attached == old(attached)[p := Slots(0, 0)]
    {
      p := lastObject + 1;
      lastObject := p;
      attached := attached[p := Slots(0, 0)];
    }

    /** glCreateShader: a new shader with no source. */
    method CreateShader(kind: ShaderKind) returns (s: nat)
      requires ObjectsValid()
      modifies this`shaders, this`lastObject
      ensures ObjectsValid()
      ensures s == old(lastObject) + 1 && lastObject == s
      ensures s !in old(shaders) && s !in attached && !AttachedAnywhere(s)
      ensures shaders == old(shaders)[s := Shader(kind, [], false)]
    {
      s := lastObject + 1;
      assert s !in shaders;
      assert !AttachedAnywhere(s);
      lastObject := s;
      shaders := shaders[s := Shader(kind, [], false)];
      assert forall p :: p in attached ==> SlotsValid(attached[p]) by {
        forall p | p in attached ensures SlotsValid(attached[p]) {
          assert old(SlotsValid(attached[p]));
        }
      }
    }

    /** glShaderSource: the list of strings becomes the shader's source. */
    method ShaderSource(s: nat, source: seq<Shaders.SourcePart>)
      requires ObjectsValid()
      modifies this`shaders, this`error
      ensures ObjectsValid()
      ensures shaders == if s in old(shaders) then old(shaders)[s := old(shaders)[s].(source := source)] else old(shaders)
      ensures error == (old(error) || s !in old(shaders))
    {
      if s !in shaders {
        error := true;
      } else {
        shaders := shaders[s := shaders[s].(source := source)];
        assert forall p :: p in attached ==> SlotsValid(attached[p]) by {
          forall p | p in attached ensures SlotsValid(attached[p]) {
            assert old(SlotsValid(attached[p]));
          }
        }
      }
    }

    /** glCompileShader: the driver decides whether the source compiles. */
    method CompileShader(s: nat)
      requires ObjectsValid()
      modifies this`shaders, this`error
      ensures ObjectsValid()
      ensures shaders == if s in old(shaders)
                         then old(shaders)[s := old(shaders)[s].(compiled := compiles(old(shaders)[s].kind, old(shaders)[s].source))]
                         else old(shaders)
      ensures error == (old(error) || s !in old(shaders))
    {
      if s !in shaders {
        error := true;
      } else {
        shaders := shaders[s := shaders[s].(compiled := compiles(shaders[s].kind, shaders[s].source))];
        assert forall p :: p in attached ==> SlotsValid(attached[p]) by {
          forall p | p in attached ensures SlotsValid(attached[p]) {
            assert old(SlotsValid(attached[p]));
          }
        }
      }
    }

    /** glGetShaderiv(GL_COMPILE_STATUS). */
    method GetCompileStatus(s: nat) returns (success: bool)
      modifies this`error
      ensures success == (s in shaders && shaders[s].compiled)
      ensures error == (old(error) || s !in shaders)
    {
      if s !in shaders {
        error := true;
        success := false;
      } else {
        success := shaders[s].compiled;
      }
    }

    /** glDeleteShader: 0 is ignored; an attached shader is not deleted (the deferred-deletion flag is not modelled). */
    method DeleteShader(s: nat)
      requires ObjectsValid()
      modifies this`shaders, this`error
      ensures ObjectsValid()
      ensures shaders == if s in old(shaders) && !AttachedAnywhere(s) then old(shaders) - {s} else old(shaders)
      ensures error == (old(error) || (s != 0 && s !in old(shaders)))
    {
      if s == 0 {
      } else if s !in shaders {
        error := true;
      } else if !AttachedAnywhere(s) {
        shaders := shaders - {s};
        assert forall p :: p in attached ==> SlotsValid(attached[p]) by {
          forall p | p in attached ensures SlotsValid(attached[p]) {
            assert old(SlotsValid(attached[p]));
            assert attached[p].vertex != s && attached[p].fragment != s;
          }
        }
      }
    }

    /** glAttachShader: ES 2.0 refuses a second shader of the same kind. */
    method AttachShader(p: nat, s: nat)
      requires ObjectsValid()
      modifies this`attached, this`error
      ensures ObjectsValid()
      ensures attached == if old(CanAttach(p, s)) then old(attached)[p := Attached(old(attached)[p], shaders[s].kind, s)]
                          else old(attached)
      ensures error == (old(error) || !old(CanAttach(p, s)))
    {
      if CanAttach(p, s) {
        attached := attached[p := Attached(attached[p], shaders[s].kind, s)];
      } else {
        error := true;
      }
    }

    /** glDetachShader: `s` must be attached to `p`. */
    method DetachShader(p: nat, s: nat)
      requires ObjectsValid()
      modifies this`attached, this`error
      ensures ObjectsValid()
      ensures attached == if old(IsAttachedTo(p, s)) then old(attached)[p := Detached(old(attached)[p], s)] else old(attached)
      ensures error == (old(error) || !old(IsAttachedTo(p, s)))
    {
      if IsAttachedTo(p, s) {
        attached := attached[p := Detached(attached[p], s)];
      } else {
        error := true;
      }
    }

    /** glGetAttachedShaders: at most `maxCount` of the attached shaders. */
    method GetAttachedShaders(p: nat, maxCount: nat) returns (names: seq<nat>)
      modifies this`error
      ensures names == if p in attached then Occupied(attached[p])[..Min(maxCount, |Occupied(attached[p])|)] else []
      ensures error == (old(error) || p !in attached)
    {
      if p in attached {
        var all := Occupied(attached[p]);
        names := all[..Min(maxCount, |all|)];
      } else {
        names := [];
        error := true;
      }
    }

    /** glLinkProgram: succeeds when the attached shaders are Linkable; a failed link leaves no executable. */
    method LinkProgram(p: nat)
      requires ObjectsValid()
      modifies this`linked, this`error
      ensures ObjectsValid()
      ensures linked == if p !in attached then old(linked)
                        else if Linkable(p) then old(linked)[p := Linked(p)]
                        else old(linked) - {p}
      ensures error == (old(error) || p !in attached)
    {
      if p !in attached {
        error := true;
      } else {
        if Linkable(p) {
          linked := linked[p := Linked(p)];
        } else {
          linked := linked - {p};
        }
      }
    }

    /** glUseProgram: only 0 or a linked program can be made current. */
    method UseProgram(p: nat)
      modifies this`program, this`error
      ensures program == if p == 0 || p in linked then p else old(program)
      ensures error == (old(error) || (p != 0 && p !in linked))
    {
      if p == 0 || p in linked {
        program := p;
      } else {
        error := true;
      }
    }

    /**
     * glGetAttribLocation and glGetUniformLocation for the names the resizer
     * asks for: a linked program answers with a location (the model fixes it
     * at 0); any other program is GL_INVALID_OPERATION and yields -1.
     */
    method GetLocation(p: nat) returns (location: int)
      modifies this`error
      ensures location == if p in linked then 0 else -1
      ensures error == (old(error) || p !in linked)
    {
      if p in linked {
        location := 0;
      } else {
        location := -1;
        error := true;
      }
    }

    /** glEnableVertexAttribArray and glVertexAttribPointer: an index out of range is GL_INVALID_VALUE. */
    method UseVertexAttrib(index: int)
      modifies this`error
      ensures error == (old(error) || !ValidAttrib(index))
    {
      if !ValidAttrib(index) {
        error := true;
      }
    }

    /** glDrawArrays(GL_TRIANGLES): an incomplete framebuffer is GL_INVALID_FRAMEBUFFER_OPERATION. */
    method DrawArrays(count: nat)
      requires BindingsValid()
      modifies this`draws, this`error
      ensures draws == old(draws) + if framebuffer == 0 || Complete(framebuffer)
                                    then [Draw(framebuffer, viewport, program, texture,
                                               textures[texture].minFilter, textures[texture].magFilter, count)]
                                    else []
      ensures error == (old(error) || (framebuffer != 0 && !Complete(framebuffer)))
    {
      if framebuffer != 0 && !Complete(framebuffer) {
        error := true;
      } else {
        draws := draws + [Draw(framebuffer, viewport, program, texture,
                               textures[texture].minFilter, textures[texture].magFilter, count)];
      }
    }
  }
}
