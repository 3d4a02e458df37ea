/** The small predicates of Click's `Router` and `Handler`: handler flag
    tests, a fresh handler, connection endpoints (`Hookup`) and the
    router's lifecycle state. */
module Router {
  import opened Common

  /** `enum { STOP_RUNCOUNT = -2147483647 - 1 }`. */
  const STOP_RUNCOUNT: int := -2147483647 - 1

  // ---------------------------------------------------------------------
  // Handler flags
  // ---------------------------------------------------------------------

  const OP_READ: bv32 := 0x001
  const OP_WRITE: bv32 := 0x002
  const READ_PARAM: bv32 := 0x004
  const ONE_HOOK: bv32 := 0x008
  const EXCLUSIVE: bv32 := 0x010
  const RAW: bv32 := 0x020

  /** A handler: its name, callback data, `_flags`, `_use_count`,
      `_next_by_name`, and its read and write hooks (0 for null). */
  datatype Handler = Handler(name: string, thunk1: int, thunk2: int, flags: bv32,
                             useCount: int, nextByName: int, readHook: int, writeHook: int)

  /** `Handler(name)`: no callback data, no flags, unused, unlinked, no
      hooks. */
  function NewHandler(name: string): (h: Handler)
    ensures h.name == name && h.flags == 0
    ensures h.thunk1 == 0 && h.thunk2 == 0 && h.readHook == 0 && h.writeHook == 0
    ensures h.useCount == 0 && h.nextByName == -1
    ensures !Readable(h) && !Writable(h) && !Visible(h)
  {
    Handler(name, 0, 0, 0, 0, -1, 0, 0)
  }

  /** `blank_handler()`: a handler that can do nothing. */
  function BlankHandler(): (h: Handler)
    ensures h.flags == 0 && !Readable(h) && !Writable(h)
  {
    NewHandler("<blank>")
  }

  predicate Readable(h: Handler) { h.flags & OP_READ != 0 }
  predicate ReadParam(h: Handler) { h.flags & READ_PARAM != 0 }
  predicate ReadVisible(h: Handler) { h.flags & OP_READ != 0 }
  predicate Writable(h: Handler) { h.flags & OP_WRITE != 0 }
  predicate WriteVisible(h: Handler) { h.flags & OP_WRITE != 0 }
  predicate Visible(h: Handler) { h.flags & (OP_READ | OP_WRITE) != 0 }
  predicate Exclusive(h: Handler) { h.flags & EXCLUSIVE != 0 }
  predicate Raw(h: Handler) { h.flags & RAW != 0 }

  /** A handler is visible exactly when it can be read or written, and the
      visible variants of read and write coincide with the plain ones. */
  lemma {:induction false} VisibleIffReadOrWrite(h: Handler)
    ensures Visible(h) <==> Readable(h) || Writable(h)
    ensures ReadVisible(h) <==> Readable(h)
    ensures WriteVisible(h) <==> Writable(h)
  {
  }

  /** Each flag predicate tests one bit and ignores the others: setting or
      clearing any other bit never changes it. */
  lemma {:induction false} FlagsAreIndependent(h: Handler, other: bv32)
    requires other & (OP_READ | OP_WRITE | READ_PARAM | EXCLUSIVE | RAW) == 0
    ensures Readable(h.(flags := h.flags | other)) <==> Readable(h)
    ensures Writable(h.(flags := h.flags | other)) <==> Writable(h)
    ensures ReadParam(h.(flags := h.flags | other)) <==> ReadParam(h)
    ensures Exclusive(h.(flags := h.flags | other)) <==> Exclusive(h)
    ensures Raw(h.(flags := h.flags | other)) <==> Raw(h)
  {
  }

  // ---------------------------------------------------------------------
  // Hookup
  // ---------------------------------------------------------------------

  /** An element index and a port. */
  datatype Hookup = Hookup(idx: int, port: int)

  /** `Hookup()`: index -1; the port is left uninitialised in the source,
      so the model takes whatever value it holds as a parameter. */
  function DefaultHookup(garbagePort: int): (h: Hookup)
    ensures h.idx == -1 && h.port == garbagePort
  {
    Hookup(-1, garbagePort)
  }

  predicate HookupEq(a: Hookup, b: Hookup) { a.idx == b.idx && a.port == b.port }
  predicate HookupNe(a: Hookup, b: Hookup) { a.idx != b.idx || a.port != b.port }

  /** `==` is equality of both fields and `!=` its exact negation. */
  lemma {:induction false} HookupEquality(a: Hookup, b: Hookup)
    ensures HookupEq(a, b) <==> a == b
    ensures HookupNe(a, b) <==> !HookupEq(a, b)
  {
  }

  // ---------------------------------------------------------------------
  // Router lifecycle
  // ---------------------------------------------------------------------

  /** `ROUTER_NEW` .. `ROUTER_DEAD`, in declaration order. */
  datatype RouterState = New | Preconfigure | Preinitialize | Live | Dead

  function Ordinal(s: RouterState): (n: int)
    ensures 0 <= n <= 4
  {
    match s
      case New => 0
      case Preconfigure => 1
      case Preinitialize => 2
      case Live => 3
      case Dead => 4
  }

  /** `running()`: `_running > 0`. */
  predicate Running(running: int) { running > 0 }

  /** `initialized()`: the state is `ROUTER_LIVE`. */
  predicate Initialized(s: RouterState) { s == Live }

  /** `handlers_ready()`: the state is past `ROUTER_PRECONFIGURE`. */
  predicate HandlersReady(s: RouterState) { Ordinal(s) > Ordinal(Preconfigure) }

  /** With the declared state order, an initialized router has its
      handlers ready; a new or preconfiguring one does not. */
  lemma {:induction false} InitializedImpliesHandlersReady(s: RouterState)
    ensures Initialized(s) ==> HandlersReady(s)
    ensures HandlersReady(s) <==> s in {Preinitialize, Live, Dead}
  {
  }

  /** `STOP_RUNCOUNT` is the least 32-bit signed integer. */
  lemma {:induction false} StopRuncountIsInt32Min()
    ensures STOP_RUNCOUNT == INT32_MIN
  {
  }
}
