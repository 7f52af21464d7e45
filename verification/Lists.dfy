/** Lists without repetition, as an insertion-ordered dictionary of keys makes them. */
module Lists {
  /** Keeping the first of equal entries. */
  function Firsts(list: seq<string>): seq<string> {
    if list == [] then []
    else
      var before := Firsts(list[..|list| - 1]);
      var last := list[|list| - 1];
      if last in before then before else before + [last]
  }

  lemma {:induction false} FirstsKeepsMembers(list: seq<string>, x: string)
    ensures x in Firsts(list) <==> x in list
    ensures forall i, j | 0 <= i < j < |Firsts(list)| :: Firsts(list)[i] != Firsts(list)[j]
  {
    if list != [] {
      assert list == list[..|list| - 1] + [list[|list| - 1]];
      FirstsKeepsMembers(list[..|list| - 1], x);
    }
  }

  lemma {:induction false} FirstsGrows(list: seq<string>, more: seq<string>, k: nat)
    requires k < |more|
    ensures Firsts(list + more[..k + 1]) ==
            if more[k] in Firsts(list + more[..k]) then Firsts(list + more[..k]) else Firsts(list + more[..k]) + [more[k]]
  {
    var all := list + more[..k + 1];
    assert all[..|all| - 1] == list + more[..k];
  }
}
