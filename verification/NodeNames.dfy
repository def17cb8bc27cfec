/**
 The names of the pipeline's nodes.  Records store names as text; older records
 and rollback requests may use the legacy names.  The rest of the model works on
 the decoded form, and this module shows that nothing is lost by decoding.
 */
module NodeNames {

  const NODE_COUNT: nat := 6

  type NodeIndex = i: nat | i < NODE_COUNT

  /** A name found in a record: one of the six nodes, a legacy alias, or something else. */
  datatype NodeName =
    | Canonical(index: NodeIndex)
    | Legacy(index: NodeIndex)
    | RollbackNote(index: NodeIndex)
    | Unknown(text: string)

  function NodeText(i: NodeIndex): (s: string)
    ensures |s| == match i case 0 => 15 case 1 => 18 case 2 => 12 case 3 => 16 case 4 => 19 case _ => 21
    ensures s[0] == match i case 0 => 'i' case 1 => 'p' case 2 => 'p' case 3 => 'r' case 4 => 'e' case _ => 'r'
    ensures s[1] != 'o'
  {
    match i
    case 0 => "import_evidence"
    case 1 => "promote_capability"
    case 2 => "pack_context"
    case 3 => "run_verification"
    case 4 => "evaluate_capability"
    case _ => "record_learning_patch"
  }

  function AliasText(i: NodeIndex): (s: string)
    ensures |s| == match i case 0 => 15 case 1 => 17 case 2 => 12 case 3 => 14 case 4 => 16 case _ => 12
    ensures s[0] == match i case 0 => 'o' case 1 => 's' case 2 => 'c' case 3 => 'e' case 4 => 'e' case _ => 'l'
  {
    match i
    case 0 => "observe_capture"
    case 1 => "structure_promote"
    case 2 => "context_pack"
    case 3 => "execute_replay"
    case 4 => "evaluate_harness"
    case _ => "learn_export"
  }

  function NoteText(i: NodeIndex): (s: string)
    ensures |s| > 12 && s[0] == 'r' && s[1] == 'o' && s[12..] == NodeText(i)
  {
    "rollback_to_" + NodeText(i)
  }

  function Text(n: NodeName): string {
    match n
    case Canonical(i) => NodeText(i)
    case Legacy(i) => AliasText(i)
    case RollbackNote(i) => NoteText(i)
    case Unknown(text) => text
  }

  /** First i in lo..6 whose text in the table is `text`, or 6. */
  function FindText(table: NodeIndex -> string, text: string, lo: nat): (i: nat)
    requires lo <= NODE_COUNT
    ensures lo <= i <= NODE_COUNT
    ensures i < NODE_COUNT ==> table(i) == text
    ensures forall j: NodeIndex :: lo <= j < i ==> table(j) != text
    decreases NODE_COUNT - lo
  {
    if lo == NODE_COUNT then lo else if table(lo) == text then lo else FindText(table, text, lo + 1)
  }

  function Decode(text: string): NodeName {
    var i := FindText(NodeText, text, 0);
    var j := FindText(AliasText, text, 0);
    var k := FindText(NoteText, text, 0);
    if i < NODE_COUNT then Canonical(i)
    else if j < NODE_COUNT then Legacy(j)
    else if k < NODE_COUNT then RollbackNote(k)
    else Unknown(text)
  }

  /** `NODE_ALIASES.get(node, node)`. */
  function CanonicalName(n: NodeName): NodeName {
    match n
    case Legacy(i) => Canonical(i)
    case _ => n
  }

  /** The twelve names and the six rollback notes are pairwise different texts. */
  lemma {:induction false} TextsDistinct(i: NodeIndex, j: NodeIndex)
    ensures NodeText(i) == NodeText(j) ==> i == j
    ensures AliasText(i) == AliasText(j) ==> i == j
    ensures NodeText(i) != AliasText(j)
    ensures NoteText(i) != NodeText(j) && NoteText(i) != AliasText(j)
    ensures NoteText(i) == NoteText(j) ==> i == j
  {
    if NoteText(i) == NoteText(j) {
      assert NodeText(i) == NoteText(i)[12..] == NoteText(j)[12..] == NodeText(j);
    }
    assert NoteText(i)[1] == 'o';
  }

  /** The names that records use for the nodes, in the order the nodes run; and the older names for them. */
  lemma {:induction false} NamesOfNodes(i: NodeIndex)
    ensures Decode(match i
                   case 0 => "import_evidence" case 1 => "promote_capability" case 2 => "pack_context"
                   case 3 => "run_verification" case 4 => "evaluate_capability" case _ => "record_learning_patch")
            == Canonical(i)
    ensures CanonicalName(Decode(match i
                                 case 0 => "observe_capture" case 1 => "structure_promote" case 2 => "context_pack"
                                 case 3 => "execute_replay" case 4 => "evaluate_harness" case _ => "learn_export"))
            == Canonical(i)
    ensures Decode("rollback_to_" + NodeText(i)) == RollbackNote(i)
  {
    DecodeInvertsText(Canonical(i));
    DecodeInvertsText(Legacy(i));
    DecodeInvertsText(RollbackNote(i));
  }

  /** Decoding inverts printing, so every stored name has exactly one decoded form. */
  lemma {:induction false} DecodeInvertsText(n: NodeName)
    requires n.Unknown? ==> Decode(n.text).Unknown?
    ensures Decode(Text(n)) == n
    ensures Text(Decode(Text(n))) == Text(n)
  {
    var text := Text(n);
    var i := FindText(NodeText, text, 0);
    var j := FindText(AliasText, text, 0);
    var k := FindText(NoteText, text, 0);
    if n.Canonical? {
      if i < NODE_COUNT { TextsDistinct(i, n.index); }
    } else if n.Legacy? {
      if i < NODE_COUNT { TextsDistinct(i, n.index); }
      if j < NODE_COUNT { TextsDistinct(j, n.index); }
    } else if n.RollbackNote? {
      if i < NODE_COUNT { TextsDistinct(n.index, i); }
      if j < NODE_COUNT { TextsDistinct(n.index, j); }
      if k < NODE_COUNT { TextsDistinct(k, n.index); }
    }
  }
}
