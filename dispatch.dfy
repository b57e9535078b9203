/**
 * The choice of completion strategy from the kind of the innermost syntax
 * node at the cursor.
 */
module Dispatch {

  /** The leaf kinds the dispatcher distinguishes; `Other` stands for every
      remaining kind of syntax node. */
  datatype TreeKind = Identifier | MemberSelect | MemberReference | Switch | Import | Other

  /** The six completion strategies. */
  datatype Strategy =
    | IdentifierCompletion
    | MemberSelectCompletion
    | MemberReferenceCompletion
    | SwitchConstantCompletion
    | ImportCompletion
    | KeywordCompletion

  /** The leaf kind for which each strategy is chosen; the keyword strategy
      serves every kind without a dedicated strategy. */
  function ServedKind(strategy: Strategy): TreeKind {
    match strategy
    case IdentifierCompletion => Identifier
    case MemberSelectCompletion => MemberSelect
    case MemberReferenceCompletion => MemberReference
    case SwitchConstantCompletion => Switch
    case ImportCompletion => Import
    case KeywordCompletion => Other
  }

  /** The switch over the leaf kind: total, with the keyword strategy as the
      default arm. The chosen strategy is exactly the one that serves the
      kind, so the keyword fallback is taken for `Other` and only for it. */
  function SelectStrategy(kind: TreeKind): (strategy: Strategy)
    ensures ServedKind(strategy) == kind
    ensures strategy == KeywordCompletion <==> kind == Other
    ensures strategy == ImportCompletion <==> kind == Import
  {
    match kind
    case Identifier => IdentifierCompletion
    case MemberSelect => MemberSelectCompletion
    case MemberReference => MemberReferenceCompletion
    case Switch => SwitchConstantCompletion
    case Import => ImportCompletion
    case _ => KeywordCompletion
  }

  /** Every strategy is reachable, from exactly the kind it serves: the
      dispatcher and ServedKind are inverse bijections. */
  lemma DispatchIsBijective(strategy: Strategy, kind: TreeKind)
    ensures SelectStrategy(ServedKind(strategy)) == strategy
    ensures SelectStrategy(kind) == strategy <==> ServedKind(strategy) == kind
  {
  }
}
