/** The plugin host: the memory layout it gives a guest, and the chain it runs. */
module Plugin {
  import opened Prelude
  import opened Wasm

  const METHOD_OFFSET: nat := 0
  const PATH_OFFSET: nat := 256
  const MAX_METHOD: nat := 256

  /** A guest's `on_request`: what it answers on a memory and its four arguments. */
  type Guest = (seq<byte>, seq<nat>) -> CallResult

  /** A compiled module: whether it instantiates, the memory a new instance exports, if any, and
      its `on_request` export, if any. */
  datatype Module = Module(instantiates: bool, memory: Option<seq<byte>>, onRequest: Option<Guest>)

  datatype Plugin = Plugin(name: string, code: Module)

  datatype PluginError =
    | MethodTooLong(name: string)
    | CannotInstantiate(name: string)
    | NoMemory(name: string)
    | MethodDoesNotFit(name: string)
    | PathDoesNotFit(name: string)
    | NoOnRequest(name: string)
    | Trapped(name: string)

  datatype Verdict = Pass | Block | Fail(error: PluginError)

  // ----- memory layout

  /** `memory` with `data` at `offset`. */
  function Overlaid(memory: seq<byte>, offset: nat, data: seq<byte>): (after: seq<byte>)
    requires offset + |data| <= |memory|
    ensures |after| == |memory|
    ensures after[offset..offset + |data|] == data
    ensures forall i :: 0 <= i < |memory| && !(offset <= i < offset + |data|) ==> after[i] == memory[i]
  {
    memory[..offset] + data + memory[offset + |data|..]
  }

  /** `memory.write`: copies in place, or refuses when the range does not fit. */
  method Write(memory: array<byte>, offset: nat, data: seq<byte>) returns (ok: bool)
    modifies memory
    ensures ok <==> offset + |data| <= memory.Length
    ensures memory[..] == if ok then Overlaid(old(memory[..]), offset, data) else old(memory[..])
  {
    if offset + |data| > memory.Length {
      return false;
    }
    for i := 0 to |data|
      invariant memory[offset..offset + i] == data[..i]
      invariant forall j :: 0 <= j < memory.Length && !(offset <= j < offset + i) ==> memory[j] == old(memory[j])
    {
      memory[offset + i] := data[i];
      assert memory[offset..offset + i + 1] == memory[offset..offset + i] + [data[i]];
      assert data[..i + 1] == data[..i] + [data[i]];
    }
    ghost var after := Overlaid(old(memory[..]), offset, data);
    forall j | 0 <= j < memory.Length
      ensures memory[j] == after[j]
    {
      if offset <= j < offset + |data| {
        assert memory[j] == memory[offset..offset + |data|][j - offset];
        assert after[j] == after[offset..offset + |data|][j - offset];
      }
    }
    return true;
  }

  function Fits(memory: seq<byte>, httpMethod: seq<byte>, path: seq<byte>): bool {
    |httpMethod| <= |memory| && PATH_OFFSET + |path| <= |memory|
  }

  function Laid(memory: seq<byte>, httpMethod: seq<byte>, path: seq<byte>): seq<byte>
    requires Fits(memory, httpMethod, path)
  {
    Overlaid(Overlaid(memory, METHOD_OFFSET, httpMethod), PATH_OFFSET, path)
  }

  /** With a method of at most 256 bytes the two writes do not meet: the method is at 0, the path
      at 256, and every other byte is as the instance had it. */
  lemma LayoutKeepsBoth(memory: seq<byte>, httpMethod: seq<byte>, path: seq<byte>)
    requires |httpMethod| <= MAX_METHOD && Fits(memory, httpMethod, path)
    ensures var laid := Laid(memory, httpMethod, path);
            && |laid| == |memory|
            && laid[..|httpMethod|] == httpMethod
            && laid[PATH_OFFSET..PATH_OFFSET + |path|] == path
            && forall i :: |httpMethod| <= i < |memory| && !(PATH_OFFSET <= i < PATH_OFFSET + |path|) ==>
                 laid[i] == memory[i]
  {
  }

  function Arguments(httpMethod: seq<byte>, path: seq<byte>): seq<nat> {
    [METHOD_OFFSET, |httpMethod| % I32, PATH_OFFSET, |path| % I32]
  }

  /** What one plugin makes of a request, on a fresh instance. */
  function VerdictOf(p: Plugin, httpMethod: seq<byte>, path: seq<byte>): Verdict {
    if |httpMethod| > MAX_METHOD then Fail(MethodTooLong(p.name))
    else if !p.code.instantiates then Fail(CannotInstantiate(p.name))
    else if p.code.memory.None? then Fail(NoMemory(p.name))
    else if |httpMethod| > |p.code.memory.value| then Fail(MethodDoesNotFit(p.name))
    else if PATH_OFFSET + |path| > |p.code.memory.value| then Fail(PathDoesNotFit(p.name))
    else if p.code.onRequest.None? then Fail(NoOnRequest(p.name))
    else
      match p.code.onRequest.value(Laid(p.code.memory.value, httpMethod, path), Arguments(httpMethod, path))
      case Trap => Fail(Trapped(p.name))
      case Value(v) => if v != 0 then Block else Pass
  }

  /** One plugin, from the length guard to its answer, on a fresh instance. */
  method RunPlugin(plugin: Plugin, httpMethod: seq<byte>, path: seq<byte>) returns (verdict: Verdict)
    ensures verdict == VerdictOf(plugin, httpMethod, path)
  {
    if |httpMethod| > 256 {
      return Fail(MethodTooLong(plugin.name));
    }
    if !plugin.code.instantiates {
      return Fail(CannotInstantiate(plugin.name));
    }
    if plugin.code.memory.None? {
      return Fail(NoMemory(plugin.name));
    }
    var image := plugin.code.memory.value;
    var memory := new byte[|image|](i requires 0 <= i < |image| => image[i]);
    assert memory[..] == image;
    var ok := Write(memory, 0, httpMethod);
    if !ok {
      return Fail(MethodDoesNotFit(plugin.name));
    }
    ok := Write(memory, 256, path);
    if !ok {
      return Fail(PathDoesNotFit(plugin.name));
    }
    assert memory[..] == Laid(image, httpMethod, path);
    if plugin.code.onRequest.None? {
      return Fail(NoOnRequest(plugin.name));
    }
    var result := plugin.code.onRequest.value(memory[..], [0, |httpMethod| % I32, 256, |path| % I32]);
    match result
    case Trap => return Fail(Trapped(plugin.name));
    case Value(v) => return if v != 0 then Block else Pass;
  }

  /** The verdict in plain terms: which module is refused for what, and what a guest gets to see. With the
      method at 0 and the path at 256, each named by offset and length, everything else is as in its image. */
  lemma VerdictIs(p: Plugin, httpMethod: seq<byte>, path: seq<byte>)
    ensures var verdict := VerdictOf(p, httpMethod, path);
            && (|httpMethod| > 256 ==> verdict == Fail(MethodTooLong(p.name)))
            && (|httpMethod| <= 256 && !p.code.instantiates ==> verdict == Fail(CannotInstantiate(p.name)))
            && (|httpMethod| <= 256 && p.code.instantiates ==>
                  && (p.code.memory.None? ==> verdict == Fail(NoMemory(p.name)))
                  && (p.code.memory.Some? && |httpMethod| > |p.code.memory.value| ==>
                        verdict == Fail(MethodDoesNotFit(p.name)))
                  && (p.code.memory.Some? && |httpMethod| <= |p.code.memory.value| < 256 + |path| ==>
                        verdict == Fail(PathDoesNotFit(p.name)))
                  && (p.code.memory.Some? && 256 + |path| <= |p.code.memory.value| ==>
                        && (p.code.onRequest.None? ==> verdict == Fail(NoOnRequest(p.name)))
                        && (p.code.onRequest.Some? ==>
                              exists memory :: Shows(memory, p.code.memory.value, httpMethod, path) &&
                                var result := p.code.onRequest.value(memory,
                                                [0, |httpMethod|, 256, |path| % 0x1_0000_0000]);
                                && (result.Trap? <==> verdict == Fail(Trapped(p.name)))
                                && (result.Value? && result.value != 0 <==> verdict == Block)
                                && (result.Value? && result.value == 0 <==> verdict == Pass))))
  {
    if |httpMethod| <= 256 && p.code.memory.Some? && 256 + |path| <= |p.code.memory.value| {
      var laid := Laid(p.code.memory.value, httpMethod, path);
      LayoutKeepsBoth(p.code.memory.value, httpMethod, path);
      assert Shows(laid, p.code.memory.value, httpMethod, path);
      assert Arguments(httpMethod, path) == [0, |httpMethod|, 256, |path| % 0x1_0000_0000];
    }
  }

  /** The memory is the image with the method at 0 and the path at 256. */
  ghost predicate Shows(memory: seq<byte>, image: seq<byte>, httpMethod: seq<byte>, path: seq<byte>) {
    && |memory| == |image| && |httpMethod| <= 256 && 256 + |path| <= |image|
    && memory[..|httpMethod|] == httpMethod && memory[256..256 + |path|] == path
    && forall i :: |httpMethod| <= i < |image| && !(256 <= i < 256 + |path|) ==> memory[i] == image[i]
  }

  /** A guest that answers `p` of the two ranges its arguments name. */
  function Asking(p: (seq<byte>, seq<byte>) -> bool): Guest {
    (memory: seq<byte>, args: seq<nat>) =>
      if |args| == 4 && args[0] + args[1] <= |memory| && args[2] + args[3] <= |memory|
      then Value(if p(memory[args[0]..args[0] + args[1]], memory[args[2]..args[2] + args[3]]) then 1 else 0)
      else Trap
  }

  /** So whatever a guest asks of the two ranges it is handed, it asks of the request's method and path. */
  lemma GuestSeesRequest(name: string, image: seq<byte>, p: (seq<byte>, seq<byte>) -> bool,
                         httpMethod: seq<byte>, path: seq<byte>)
    requires |httpMethod| <= 256 && 256 + |path| <= |image| <= 0x1_0000_0000
    ensures VerdictOf(Plugin(name, Module(true, Some(image), Some(Asking(p)))), httpMethod, path) ==
            if p(httpMethod, path) then Block else Pass
  {
    var plugin := Plugin(name, Module(true, Some(image), Some(Asking(p))));
    VerdictIs(plugin, httpMethod, path);
    forall memory | Shows(memory, image, httpMethod, path)
      ensures Asking(p)(memory, [0, |httpMethod|, 256, |path| % 0x1_0000_0000]) ==
              Value(if p(httpMethod, path) then 1 else 0)
    {
      AskingAnswers(p, memory, image, httpMethod, path);
    }
    hide VerdictOf, Asking, Shows;
  }

  lemma AskingAnswers(p: (seq<byte>, seq<byte>) -> bool, memory: seq<byte>, image: seq<byte>, httpMethod: seq<byte>,
                      path: seq<byte>)
    requires |image| <= 0x1_0000_0000 && Shows(memory, image, httpMethod, path)
    ensures Asking(p)(memory, [0, |httpMethod|, 256, |path| % 0x1_0000_0000]) ==
            Value(if p(httpMethod, path) then 1 else 0)
  {
    var args := [0, |httpMethod|, 256, |path| % 0x1_0000_0000];
    assert args[3] == |path|;
    assert memory[args[0]..args[0] + args[1]] == httpMethod && memory[args[2]..args[2] + args[3]] == path;
  }

  /** A module that exports no memory is refused on every request, whatever its `on_request` would answer. */
  lemma MemorylessIsRefused(p: Plugin, httpMethod: seq<byte>, path: seq<byte>)
    requires p.code.instantiates && p.code.memory.None? && |httpMethod| <= 256
    ensures VerdictOf(p, httpMethod, path) == Fail(NoMemory(p.name))
  {
  }

  // ----- the chain

  function Verdicts(plugins: seq<Plugin>, httpMethod: seq<byte>, path: seq<byte>): seq<Verdict> {
    seq(|plugins|, i requires 0 <= i < |plugins| => VerdictOf(plugins[i], httpMethod, path))
  }

  class PluginRuntime {
    var plugins: seq<Plugin>

    constructor ()
      ensures plugins == []
    {
      plugins := [];
    }

    method PushModule(name: string, code: Module)
      modifies this
      ensures plugins == old(plugins) + [Plugin(name, code)]
    {
      plugins := plugins + [Plugin(name, code)];
    }

    /** `run_on_request` runs a prefix of the plugins; the last one run is the first that does not
        pass, its verdict is the result, and if there is none all were run and all passed. */
    method RunOnRequest(httpMethod: seq<byte>, path: seq<byte>)
      returns (r: Result<bool, PluginError>, ran: nat)
      ensures ran <= |plugins|
      ensures forall j :: 0 <= j < ran - 1 ==> VerdictOf(plugins[j], httpMethod, path) == Pass
      ensures match r
              case Ok(false) =>
                ran == |plugins| && forall j :: 0 <= j < |plugins| ==> VerdictOf(plugins[j], httpMethod, path) == Pass
              case Ok(true) => ran > 0 && VerdictOf(plugins[ran - 1], httpMethod, path) == Block
              case Err(e) => ran > 0 && VerdictOf(plugins[ran - 1], httpMethod, path) == Fail(e)
      ensures r == ResultOf(Chain(Verdicts(plugins, httpMethod, path)))
    {
      ran := 0;
      ghost var verdicts := Verdicts(plugins, httpMethod, path);
      while ran < |plugins|
        invariant ran <= |plugins|
        invariant forall j :: 0 <= j < ran ==> VerdictOf(plugins[j], httpMethod, path) == Pass
      {
        var verdict := RunPlugin(plugins[ran], httpMethod, path);
        ran := ran + 1;
        ChainIsFirstNonPass(verdicts, ran - 1);
        match verdict
        case Fail(e) => return Err(e), ran;
        case Block => return Ok(true), ran;
        case Pass =>
      }
      ChainIsFirstNonPass(verdicts, ran);
      return Ok(false), ran;
    }
  }

  function ResultOf(v: Verdict): Result<bool, PluginError> {
    match v
    case Pass => Ok(false)
    case Block => Ok(true)
    case Fail(e) => Err(e)
  }

  /** The verdict of a chain: the first that is not `Pass`. */
  function Chain(verdicts: seq<Verdict>): Verdict {
    if verdicts == [] then Pass else if verdicts[0] != Pass then verdicts[0] else Chain(verdicts[1..])
  }

  lemma {:induction false} ChainIsFirstNonPass(verdicts: seq<Verdict>, k: nat)
    requires k <= |verdicts| && forall j :: 0 <= j < k ==> verdicts[j] == Pass
    ensures k == |verdicts| ==> Chain(verdicts) == Pass
    ensures k < |verdicts| && verdicts[k] != Pass ==> Chain(verdicts) == verdicts[k]
  {
    if k > 0 {
      ChainIsFirstNonPass(verdicts[1..], k - 1);
    }
  }

  /** Plugin `k` is the first that does not pass the request. */
  ghost predicate FirstToStop(plugins: seq<Plugin>, httpMethod: seq<byte>, path: seq<byte>, k: nat) {
    && k < |plugins| && VerdictOf(plugins[k], httpMethod, path) != Pass
    && forall j :: 0 <= j < k ==> VerdictOf(plugins[j], httpMethod, path) == Pass
  }

  /** The verdict of a chain in plain terms. */
  lemma ChainIs(plugins: seq<Plugin>, httpMethod: seq<byte>, path: seq<byte>)
    ensures var verdict := Chain(Verdicts(plugins, httpMethod, path));
            && (verdict == Pass <==> forall k :: 0 <= k < |plugins| ==> VerdictOf(plugins[k], httpMethod, path) == Pass)
            && (verdict == Block <==>
                exists k: nat ::
                  && k < |plugins| && VerdictOf(plugins[k], httpMethod, path) == Block
                  && forall j :: 0 <= j < k ==> VerdictOf(plugins[j], httpMethod, path) == Pass)
            && (verdict.Fail? <==>
                exists k: nat ::
                  && k < |plugins| && VerdictOf(plugins[k], httpMethod, path).Fail?
                  && forall j :: 0 <= j < k ==> VerdictOf(plugins[j], httpMethod, path) == Pass)
  {
    var verdicts := Verdicts(plugins, httpMethod, path);
    hide VerdictOf;
    if forall k :: 0 <= k < |plugins| ==> VerdictOf(plugins[k], httpMethod, path) == Pass {
      ChainIsFirstNonPass(verdicts, |plugins|);
    } else {
      var k := FirstStop(plugins, httpMethod, path);
      ChainIsFirstNonPass(verdicts, k);
    }
  }

  lemma FirstStop(plugins: seq<Plugin>, httpMethod: seq<byte>, path: seq<byte>) returns (k: nat)
    requires exists j :: 0 <= j < |plugins| && VerdictOf(plugins[j], httpMethod, path) != Pass
    ensures FirstToStop(plugins, httpMethod, path, k)
  {
    hide VerdictOf;
    k := 0;
    while VerdictOf(plugins[k], httpMethod, path) == Pass
      invariant k < |plugins|
      invariant forall j :: 0 <= j < k ==> VerdictOf(plugins[j], httpMethod, path) == Pass
      decreases |plugins| - k
    {
      k := k + 1;
    }
  }

  /** A chain split anywhere: the first part decides unless it passes. */
  lemma {:induction false} ChainConcat(a: seq<Verdict>, b: seq<Verdict>)
    ensures Chain(a + b) == if Chain(a) != Pass then Chain(a) else Chain(b)
  {
    if a == [] {
      assert a + b == b;
    } else {
      assert (a + b)[1..] == a[1..] + b;
      ChainConcat(a[1..], b);
    }
  }

  lemma {:induction false} ChainPassesIff(verdicts: seq<Verdict>)
    ensures Chain(verdicts) == Pass <==> forall v :: v in verdicts ==> v == Pass
    ensures Chain(verdicts) != Pass ==> Chain(verdicts) in verdicts
  {
    if verdicts != [] {
      ChainPassesIff(verdicts[1..]);
      assert verdicts[0] in verdicts;
      assert forall v :: v in verdicts[1..] ==> v in verdicts;
      assert forall v :: v in verdicts ==> v == verdicts[0] || v in verdicts[1..];
    }
  }

  /** The order of the plugins never matters to this request. */
  ghost predicate OrderIrrelevant(verdicts: seq<Verdict>) {
    forall other :: multiset(other) == multiset(verdicts) ==> Chain(other) == Chain(verdicts)
  }

  ghost predicate NonPassAgree(verdicts: seq<Verdict>) {
    forall v, w :: v in verdicts && w in verdicts && v != Pass && w != Pass ==> v == w
  }

  /** The order is irrelevant exactly when all plugins that do not pass agree. */
  lemma OrderIrrelevantIff(verdicts: seq<Verdict>)
    ensures OrderIrrelevant(verdicts) <==> NonPassAgree(verdicts)
  {
    if NonPassAgree(verdicts) {
      forall other | multiset(other) == multiset(verdicts)
        ensures Chain(other) == Chain(verdicts)
      {
        ChainPassesIff(other);
        ChainPassesIff(verdicts);
        assert forall v :: v in other <==> v in multiset(other);
        assert forall v :: v in verdicts <==> v in multiset(verdicts);
      }
    }
    if OrderIrrelevant(verdicts) {
      forall v, w | v in verdicts && w in verdicts && v != Pass && w != Pass
        ensures v == w
      {
        assert Chain(verdicts) == v by { MoveToFront(verdicts, v); }
        assert Chain(verdicts) == w by { MoveToFront(verdicts, w); }
      }
    }
  }

  lemma MoveToFront(verdicts: seq<Verdict>, v: Verdict)
    requires v in verdicts && v != Pass
    ensures exists other :: multiset(other) == multiset(verdicts) && Chain(other) == v
  {
    var i :| 0 <= i < |verdicts| && verdicts[i] == v;
    var before, after := verdicts[..i], verdicts[i + 1..];
    var other := [v] + (before + after);
    assert verdicts == before + [v] + after;
    assert multiset(other) == multiset(verdicts);
    assert other[0] == v;
    assert Chain(other) == v;
  }

  /** In particular, if no plugin fails, the plugins can run in any order. */
  lemma WithoutErrorsOrderIsIrrelevant(verdicts: seq<Verdict>)
    requires forall v :: v in verdicts ==> !v.Fail?
    ensures OrderIrrelevant(verdicts)
  {
    OrderIrrelevantIff(verdicts);
  }

  // ----- host and guest together

  const PAGE: nat := 65_536

  function Zeros(n: nat): (zeros: seq<byte>)
    ensures |zeros| == n
  {
    seq(n, _ => 0)
  }

  /** The fixture, with one page of memory. */
  function BlockPathPlugin(name: string): Plugin {
    Plugin(name, Module(true, Some(Zeros(PAGE)), Some((memory, args) => Call(BlockPath(), args, memory))))
  }

  lemma FixtureOnMemory(args: seq<nat>, path: seq<byte>, memory: seq<byte>)
    requires |args| == 4 && args[PATH_PTR] == PATH_OFFSET && args[PATH_LEN] == |path|
    requires PATH_OFFSET + |path| <= |memory| <= I32 && memory[PATH_OFFSET..PATH_OFFSET + |path|] == path
    ensures Call(BlockPath(), args, memory) == Value(if BLOCK <= path then 1 else 0)
  {
    BlockPathDecides(args, memory);
  }

  /** On every request the fixture accepts the layout of, it blocks exactly the paths that start
      with "/block"; longer methods and paths are errors. */
  lemma FixtureBlocksExactly(name: string, httpMethod: seq<byte>, path: seq<byte>)
    ensures VerdictOf(BlockPathPlugin(name), httpMethod, path) ==
            if |httpMethod| > 256 then Fail(MethodTooLong(name))
            else if 256 + |path| > 65_536 then Fail(PathDoesNotFit(name))
            else if [47, 98, 108, 111, 99, 107] <= path then Block
            else Pass
  {
    if |httpMethod| <= MAX_METHOD && |path| <= PAGE - PATH_OFFSET {
      LayoutKeepsBoth(Zeros(PAGE), httpMethod, path);
      FixtureOnMemory(Arguments(httpMethod, path), path, Laid(Zeros(PAGE), httpMethod, path));
    }
  }
}
