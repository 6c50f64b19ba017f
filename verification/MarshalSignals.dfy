/** FMU signals as the FMI MCL parser builds them, and the keys they are grouped by
    (dse/fmimcl/parser.c, dse/fmimcl/fmimcl.h). */
module MarshalSignals {
  import opened Wrappers

  // Enumeration values of the marshal library, as pinned by the group names `mg-<kind>-<dir>-<type>`.
  const KIND_NONE: nat := 0
  const KIND_PRIMITIVE: nat := 1
  const KIND_BINARY: nat := 2
  const KIND_SIZE: nat := 3

  const DIR_NONE: nat := 0
  const DIR_TXRX: nat := 1
  const DIR_RXONLY: nat := 2
  const DIR_TXONLY: nat := 3
  const DIR_PARAMETER: nat := 4
  const DIR_LOCAL: nat := 5

  const TYPE_NONE: nat := 0
  const TYPE_INT32: nat := 7
  const TYPE_DOUBLE: nat := 10
  const TYPE_BOOL: nat := 15
  const TYPE_STRING: nat := 16

  /** The number of directions, all of which the sort visits (parser.c:26-33). */
  const DIR_SIZE: nat := 6

  /** The direction the sort visits at a position: NONE, LOCAL, RXONLY, TXRX, TXONLY, PARAMETER. */
  function DirAt(rank: nat): nat
    requires rank < DIR_SIZE
  {
    match rank
    case 0 => DIR_NONE
    case 1 => DIR_LOCAL
    case 2 => DIR_RXONLY
    case 3 => DIR_TXRX
    case 4 => DIR_TXONLY
    case _ => DIR_PARAMETER
  }

  datatype Signal = Signal(name: string, vref: nat, kind: nat, dir: nat, typ: nat, encoding: Option<string>)

  /** What a run of the marshal table has in common. */
  datatype GroupKey = GroupKey(kind: nat, dir: nat, typ: nat)

  function KeyOf(s: Signal): GroupKey {
    GroupKey(s.kind, s.dir, s.typ)
  }

  function DecodeKind(t: Option<string>): nat {
    match t
    case None => KIND_NONE
    case Some(v) =>
      if v == "Real" || v == "Integer" || v == "Boolean" then KIND_PRIMITIVE
      else if v == "String" then KIND_BINARY
      else KIND_NONE
  }

  function DecodeType(t: Option<string>): nat {
    match t
    case None => TYPE_NONE
    case Some(v) =>
      if v == "Real" then TYPE_DOUBLE
      else if v == "Integer" then TYPE_INT32
      else if v == "Boolean" then TYPE_BOOL
      else if v == "String" then TYPE_STRING
      else TYPE_NONE
  }

  function DecodeDir(t: Option<string>): nat {
    match t
    case None => DIR_TXRX
    case Some(v) =>
      if v == "input" then DIR_TXONLY
      else if v == "output" then DIR_RXONLY
      else if v == "inout" then DIR_TXRX
      else if v == "parameter" then DIR_PARAMETER
      else if v == "local" then DIR_LOCAL
      else DIR_NONE
  }

  /** A signal as read from its annotations (parser.c:104-131). */
  function DecodeSignal(name: string, vref: nat, typ: Option<string>, causality: Option<string>,
                        encoding: Option<string>): (s: Signal)
    ensures Decoded(s)
  {
    Signal(name, vref, DecodeKind(typ), DecodeDir(causality), DecodeType(typ), encoding)
  }

  /** What every decoded signal satisfies: the kind follows from the type and no code is unknown. */
  ghost predicate Decoded(s: Signal) {
    && s.dir < DIR_SIZE
    && s.typ in {TYPE_NONE, TYPE_INT32, TYPE_DOUBLE, TYPE_BOOL, TYPE_STRING}
    && s.kind == (if s.typ == TYPE_NONE then KIND_NONE
                  else if s.typ == TYPE_STRING then KIND_BINARY
                  else KIND_PRIMITIVE)
  }
}
