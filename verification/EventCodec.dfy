/** How a journal event is laid out in the columns of `memory_events`, and read back. */
module EventCodec {
  import opened Common
  import opened Memory

  datatype Mutation = ToWrite | ToUpdate | ToForget

  datatype SourceKind = FromTurn | FromOperator | FromLibrarian

  datatype Columns = Columns(
    mutation: Mutation, before: Option<string>, after: Option<string>, kind: Option<Kind>, state: Option<Trust>,
    pinned: Option<bool>, sourceKind: SourceKind, sourceTurn: Option<TurnId>)

  function KindOf(source: Source): SourceKind {
    match source
    case Turn(_) => FromTurn
    case Operator => FromOperator
    case Librarian => FromLibrarian
  }

  function Encode(payload: Payload, source: Source): Columns {
    match payload
    case Write(content, kind, state, pinned) =>
      Columns(ToWrite, None, Some(content), Some(kind), Some(state), Some(pinned), KindOf(source), TurnOf(source))
    case Update(before, after, kind, state, pinned) =>
      Columns(ToUpdate, Some(before), Some(after), Some(kind), Some(state), Some(pinned),
              KindOf(source), TurnOf(source))
    case Forget(before) =>
      Columns(ToForget, Some(before), None, None, None, None, KindOf(source), TurnOf(source))
  }

  /** `Unreadable` is the failed expectation of a column the row's mutation or source must carry. */
  datatype Decoded = Decoded(payload: Payload, source: Source) | Unreadable

  function DecodeSource(c: Columns): Option<Source> {
    match c.sourceKind
    case FromTurn => if c.sourceTurn.Some? then Some(Turn(c.sourceTurn.value)) else None
    case FromOperator => Some(Operator)
    case FromLibrarian => Some(Librarian)
  }

  function DecodePayload(c: Columns): Option<Payload> {
    match c.mutation
    case ToWrite =>
      if c.after.Some? && c.kind.Some? && c.state.Some? && c.pinned.Some?
      then Some(Write(c.after.value, c.kind.value, c.state.value, c.pinned.value)) else None
    case ToUpdate =>
      if c.before.Some? && c.after.Some? && c.kind.Some? && c.state.Some? && c.pinned.Some?
      then Some(Update(c.before.value, c.after.value, c.kind.value, c.state.value, c.pinned.value)) else None
    case ToForget =>
      if c.before.Some? then Some(Forget(c.before.value)) else None
  }

  function Decode(c: Columns): Decoded {
    if DecodeSource(c).Some? && DecodePayload(c).Some? then Decoded(DecodePayload(c).value, DecodeSource(c).value)
    else Unreadable
  }

  // ----- the table's CHECK constraints

  predicate SourceShape(c: Columns) {
    c.sourceKind == FromTurn <==> c.sourceTurn.Some?
  }

  predicate ContentShape(c: Columns) {
    match c.mutation
    case ToWrite => c.before.None? && c.after.Some?
    case ToUpdate => c.before.Some? && c.after.Some?
    case ToForget => c.before.Some? && c.after.None?
  }

  predicate PayloadShape(c: Columns) {
    if c.mutation == ToForget then c.kind.None? && c.state.None? && c.pinned.None?
    else c.kind.Some? && c.state.Some? && c.pinned.Some?
  }

  predicate Allowed(c: Columns) {
    SourceShape(c) && ContentShape(c) && PayloadShape(c)
  }

  /** Which value stands in which column. */
  lemma ColumnsAre(payload: Payload, source: Source)
    ensures var c := Encode(payload, source);
            && (payload.Write? ==>
                  && c.mutation == ToWrite && c.before == None && c.after == Some(payload.content)
                  && (c.kind, c.state, c.pinned) == (Some(payload.kind), Some(payload.state), Some(payload.pinned)))
            && (payload.Update? ==>
                  && c.mutation == ToUpdate && c.before == Some(payload.before) && c.after == Some(payload.after)
                  && (c.kind, c.state, c.pinned) == (Some(payload.kind), Some(payload.state), Some(payload.pinned)))
            && (payload.Forget? ==>
                  c == c.(mutation := ToForget, before := Some(payload.before), after := None, kind := None,
                          state := None, pinned := None))
            && (source.Turn? ==> c.sourceKind == FromTurn && c.sourceTurn == Some(source.id))
            && (source.Operator? ==> c.sourceKind == FromOperator && c.sourceTurn == None)
            && (source.Librarian? ==> c.sourceKind == FromLibrarian && c.sourceTurn == None)
  {
  }

  /** Every event passes the constraints and is read back as it was written. */
  lemma EncodeThenDecode(payload: Payload, source: Source)
    ensures Allowed(Encode(payload, source))
    ensures Decode(Encode(payload, source)) == Decoded(payload, source)
  {
    match payload
    case Write(_, _, _, _) =>
    case Update(_, _, _, _, _) =>
    case Forget(_) =>
  }

  /** The constraints admit exactly the rows that are the layout of some event: on those, reading cannot fail. */
  lemma AllowedIffEncoded(c: Columns)
    ensures Allowed(c) <==> exists payload, source :: Encode(payload, source) == c
    ensures Allowed(c) ==> Decode(c).Decoded? && Encode(Decode(c).payload, Decode(c).source) == c
  {
    if payload, source :| Encode(payload, source) == c { EncodeThenDecode(payload, source); }
    if Allowed(c) {
      var d := Decode(c);
      assert d.Decoded?;
      assert Encode(d.payload, d.source) == c;
    }
  }
}
