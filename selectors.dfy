/** What the port chain and the service chain share: the operation an extra
    selector carries, the AND -> OR -> NOT -> AND cycle of its toggle, and the
    removal of one entry by index. */
module Selectors {

  datatype Op = And | Or | Not

  /** `operations[(operations.indexOf(op) + 1) % 3]` over `['AND', 'OR', 'NOT']`. */
  function NextOp(op: Op): (r: Op)
    ensures r != op
  {
    match op
    case And => Or
    case Or => Not
    case Not => And
  }

  /** Three toggles bring an entry back to where it started. */
  lemma NextOpCycle(op: Op)
    ensures NextOp(NextOp(NextOp(op))) == op
    ensures NextOp(op) != NextOp(NextOp(op))
  {
  }

  /** `s.filter((_, i) => i !== index)`: drops the entry at `index`, or
      nothing when `index` is out of range. */
  function DropIndex<T>(s: seq<T>, index: int): (r: seq<T>)
    ensures 0 <= index < |s| ==> r == s[..index] + s[index + 1..]
    ensures !(0 <= index < |s|) ==> r == s
  {
    if s == [] then []
    else
      var rest := DropIndex(s[1..], index - 1);
      assert index == 0 ==> s[index + 1..] == s[1..];
      assert 0 < index < |s| ==> s[..index] == [s[0]] + s[1..][..index - 1];
      assert 0 < index < |s| ==> s[index + 1..] == s[1..][index..];
      assert s == [s[0]] + s[1..];
      (if index == 0 then [] else [s[0]]) + rest
  }
}
