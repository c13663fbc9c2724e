/** What the tables keep of the tree they are built from. */
module ArgpTree {
  import opened ArgpSpec
  import opened Common

  // ---- groups in preorder ------------------------------------------------------------------------

  /** The option vectors of the parsers of a tree, each before those of its children. */
  function Preorder(argp: Argp): seq<seq<Opt>>
    decreases argp, 1
  {
    (if IsGroup(argp) then [Rows(argp)] else []) + PreorderAll(argp.children)
  }

  function PreorderAll(cs: seq<Argp>): seq<seq<Opt>>
    decreases cs, 0
  {
    if cs == [] then [] else Preorder(cs[0]) + PreorderAll(cs[1..])
  }

  function Vectors(groups: seq<Group>): (v: seq<seq<Opt>>)
    ensures |v| == |groups| && forall g :: 0 <= g < |groups| ==> v[g] == groups[g].options
  {
    seq(|groups|, g requires 0 <= g < |groups| => groups[g].options)
  }

  lemma EnterAdds(argp: Argp, parent: Option<nat>, index: nat, t: Tables)
    requires IsGroup(argp)
    ensures Vectors(Enter(argp, parent, index, t).groups) == Vectors(t.groups) + [Rows(argp)]
  {
    hide AddNames, Letters;
  }

  lemma {:induction false} ConvertAdds(argp: Argp, parent: Option<nat>, index: nat, t: Tables)
    ensures Vectors(Convert(argp, parent, index, t).groups) == Vectors(t.groups) + Preorder(argp)
    decreases argp, 1
  {
    hide Enter, Vectors;
    if IsGroup(argp) {
      EnterAdds(argp, parent, index, t);
      ConvertAllAdds(argp.children, Some(|t.groups|), 0, Enter(argp, parent, index, t));
      assert Vectors(t.groups) + [Rows(argp)] + PreorderAll(argp.children) == Vectors(t.groups) + Preorder(argp);
    } else {
      ConvertAllAdds(argp.children, None, 0, t);
      assert [] + PreorderAll(argp.children) == PreorderAll(argp.children);
    }
  }

  lemma {:induction false} ConvertAllAdds(cs: seq<Argp>, parent: Option<nat>, index: nat, t: Tables)
    ensures Vectors(ConvertAll(cs, parent, index, t).groups) == Vectors(t.groups) + PreorderAll(cs)
    decreases cs, 0
  {
    hide Vectors;
    if cs == [] {
      assert Vectors(t.groups) + [] == Vectors(t.groups);
    } else {
      var t' := Convert(cs[0], parent, index, t);
      ConvertAdds(cs[0], parent, index, t);
      ConvertAllAdds(cs[1..], parent, index + 1, t');
      assert Vectors(t.groups) + Preorder(cs[0]) + PreorderAll(cs[1..])
          == Vectors(t.groups) + (Preorder(cs[0]) + PreorderAll(cs[1..]));
    }
  }

  /** Group g of the tables is parser g of the tree in preorder. */
  lemma GroupsAreTheTree(argp: Argp, flags: Flags)
    ensures Vectors(ParserTables(argp, flags).groups) == Preorder(argp)
  {
    hide Convert;
    var t := Tables(Prefix(flags), [], [], 0);
    ConvertAdds(argp, None, 0, t);
    assert Vectors(t.groups) + Preorder(argp) == Preorder(argp);
  }

  // ---- the sizes -------------------------------------------------------------------------------------

  function RowCount(vectors: seq<seq<Opt>>): nat {
    if vectors == [] then 0 else |vectors[0]| + RowCount(vectors[1..])
  }

  lemma {:induction false} RowCountConcat(a: seq<seq<Opt>>, b: seq<seq<Opt>>)
    ensures RowCount(a + b) == RowCount(a) + RowCount(b)
  {
    if a == [] {
      assert a + b == b;
    } else {
      assert (a + b)[1..] == a[1..] + b;
      RowCountConcat(a[1..], b);
    }
  }

  /** Parsers of the tree other than its root, groups or not. */
  function Descendants(argp: Argp): nat
    decreases argp, 1
  {
    DescendantsAll(argp.children)
  }

  function DescendantsAll(cs: seq<Argp>): nat
    decreases cs, 0
  {
    if cs == [] then 0 else 1 + Descendants(cs[0]) + DescendantsAll(cs[1..])
  }

  lemma {:induction false} SizesCount(argp: Argp)
    ensures var v := Preorder(argp);
      SizesOf(argp) == Sizes(3 * RowCount(v), RowCount(v), |v|, Descendants(argp))
    decreases argp, 1
  {
    SizesCountAll(argp.children);
    RowCountConcat(if IsGroup(argp) then [Rows(argp)] else [], PreorderAll(argp.children));
    assert RowCount([Rows(argp)]) == |Rows(argp)|;
  }

  /** Three characters and one row for every option of the tree, one group for every parser with
      options or a function, one input slot for every descendant. */
  lemma {:induction false} SizesCountAll(cs: seq<Argp>)
    ensures var v, s := PreorderAll(cs), SizesOfAll(cs);
      && s.short == 3 * RowCount(v) && s.long == RowCount(v) && s.groups == |v|
      && s.inputs + |cs| == DescendantsAll(cs)
    decreases cs, 0
  {
    if cs != [] {
      SizesCount(cs[0]);
      SizesCountAll(cs[1..]);
      RowCountConcat(Preorder(cs[0]), PreorderAll(cs[1..]));
    }
  }

  // ---- rows ------------------------------------------------------------------------------------------

  /** A row that is no alias stands for itself, an alias for the last row before it that is none,
      or for the first row. */
  lemma {:induction false} RealMeans(opts: seq<Opt>, k: nat) returns (j: nat)
    requires k < |opts|
    ensures j <= k && Real(opts, k) == opts[j] && (j == 0 || !opts[j].alias)
    ensures forall i :: j < i <= k ==> opts[i].alias
  {
    if k == 0 || !opts[k].alias { j := k; } else { j := RealMeans(opts, k - 1); }
  }

  // The printable characters, in the order of their codes.
  const LOW := " !\"#$%&'()*+,-./0123456789:;<=>?"
  const UPPER := "@ABCDEFGHIJKLMNOPQRSTUVWXYZ[\\]^_"
  const LOWER := "`abcdefghijklmnopqrstuvwxyz{|}~"

  predicate Spells(s: string, key: int) { exists i :: 0 <= i < |s| && s[i] as int == key }

  lemma LowCodes(i: nat)
    requires i < 32
    ensures |LOW| == 32 && LOW[i] as int == i + 32
  {
  }

  lemma UpperCodes(i: nat)
    requires i < 32
    ensures |UPPER| == 32 && UPPER[i] as int == i + 64
  {
  }

  lemma LowerCodes(i: nat)
    requires i < 31
    ensures |LOWER| == 31 && LOWER[i] as int == i + 96
  {
  }

  lemma LowSpells(key: int)
    ensures Spells(LOW, key) <==> 32 <= key < 64
  {
    if 32 <= key < 64 { LowCodes(key - 32); }
    forall i | 0 <= i < |LOW| ensures LOW[i] as int == i + 32 { LowCodes(i); }
  }

  lemma UpperSpells(key: int)
    ensures Spells(UPPER, key) <==> 64 <= key < 96
  {
    if 64 <= key < 96 { UpperCodes(key - 64); }
    forall i | 0 <= i < |UPPER| ensures UPPER[i] as int == i + 64 { UpperCodes(i); }
  }

  lemma LowerSpells(key: int)
    ensures Spells(LOWER, key) <==> 96 <= key < 127
  {
    if 96 <= key < 127 { LowerCodes(key - 96); }
    forall i | 0 <= i < |LOWER| ensures LOWER[i] as int == i + 96 { LowerCodes(i); }
  }

  /** A row is a letter if its key is the code of a printable character and neither it nor the row
      it stands for is documentation. */
  lemma LetterMeans(opts: seq<Opt>, k: nat)
    requires k < |opts|
    ensures var key := opts[k].key;
      DeclaresLetter(opts, k) <==>
        !opts[k].doc && !Real(opts, k).doc && (Spells(LOW, key) || Spells(UPPER, key) || Spells(LOWER, key))
  {
    hide Spells;
    LowSpells(opts[k].key);
    UpperSpells(opts[k].key);
    LowerSpells(opts[k].key);
  }

  /** Bit i of a number. */
  predicate HasBit(a: nat, i: nat) { if i == 0 then a % 2 == 1 else HasBit(a / 2, i - 1) }

  /** The combined key has the bits of both. */
  lemma {:induction false} OrMeans(a: nat, b: nat, i: nat)
    ensures HasBit(OrBits(a, b), i) <==> HasBit(a, i) || HasBit(b, i)
    decreases i
  {
    if a == 0 {
      NoBits(i);
    } else if b == 0 {
      NoBits(i);
    } else if i > 0 {
      OrMeans(a / 2, b / 2, i - 1);
    }
  }

  lemma {:induction false} NoBits(i: nat)
    ensures !HasBit(0, i)
  {
    if i > 0 { NoBits(i - 1); }
  }

  // ---- input slots -------------------------------------------------------------------------------------

  /** No two groups are the same child of the same group. */
  ghost predicate OwnSlots(groups: seq<Group>) {
    forall g, h :: 0 <= g < h < |groups| && groups[g].parent.Some? && groups[g].parent == groups[h].parent ==>
      groups[g].index != groups[h].index
  }

  /** Only children before number `index` of group p are entered, and p is a group already. */
  ghost predicate ChildrenBefore(groups: seq<Group>, parent: Option<nat>, index: nat) {
    parent.Some? ==>
      parent.value < |groups| && forall g :: 0 <= g < |groups| && groups[g].parent == parent ==> groups[g].index < index
  }

  /** What a part of the walk adds has parents inside the part, or is one child of its parent. */
  ghost predicate AddsBelow(groups: seq<Group>, groups': seq<Group>, parent: Option<nat>, lo: nat, hi: nat) {
    && groups <= groups' && OwnSlots(groups')
    && forall g :: |groups| <= g < |groups'| && groups'[g].parent.Some? ==>
         groups'[g].parent.value >= |groups| || (groups'[g].parent == parent && lo <= groups'[g].index < hi)
  }

  lemma EnterBelow(argp: Argp, parent: Option<nat>, index: nat, t: Tables)
    requires IsGroup(argp) && OwnSlots(t.groups) && ChildrenBefore(t.groups, parent, index)
    requires forall g :: 0 <= g < |t.groups| && t.groups[g].parent.Some? ==> t.groups[g].parent.value < g
    ensures var t' := Enter(argp, parent, index, t);
      && AddsBelow(t.groups, t'.groups, parent, index, index + 1) && ParentsBefore(t'.groups)
      && |t'.groups| == |t.groups| + 1 && ChildrenBefore(t'.groups, Some(|t.groups|), 0)
  {
    hide AddNames, Letters;
  }

  ghost predicate ParentsBefore(groups: seq<Group>) {
    forall g :: 0 <= g < |groups| && groups[g].parent.Some? ==> groups[g].parent.value < g
  }

  lemma {:induction false} ConvertBelow(argp: Argp, parent: Option<nat>, index: nat, t: Tables)
    requires OwnSlots(t.groups) && ParentsBefore(t.groups) && ChildrenBefore(t.groups, parent, index)
    ensures var t' := Convert(argp, parent, index, t);
      AddsBelow(t.groups, t'.groups, parent, index, index + 1) && ParentsBefore(t'.groups)
    decreases argp, 1
  {
    hide Enter, OwnSlots;
    if IsGroup(argp) {
      var t1 := Enter(argp, parent, index, t);
      EnterBelow(argp, parent, index, t);
      AllBelow(argp.children, Some(|t.groups|), 0, t1);
    } else {
      AllBelow(argp.children, None, 0, t);
    }
  }

  lemma {:induction false} AllBelow(cs: seq<Argp>, parent: Option<nat>, index: nat, t: Tables)
    requires OwnSlots(t.groups) && ParentsBefore(t.groups) && ChildrenBefore(t.groups, parent, index)
    ensures var t' := ConvertAll(cs, parent, index, t);
      AddsBelow(t.groups, t'.groups, parent, index, index + |cs|) && ParentsBefore(t'.groups)
    decreases cs, 0
  {
    hide OwnSlots;
    if cs != [] {
      var t1 := Convert(cs[0], parent, index, t);
      ConvertBelow(cs[0], parent, index, t);
      assert ChildrenBefore(t1.groups, parent, index + 1);
      AllBelow(cs[1..], parent, index + 1, t1);
    }
  }

  /** Two child parsers never read their input from one slot. */
  lemma SlotsDistinct(argp: Argp, flags: Flags)
    ensures OwnSlots(ParserTables(argp, flags).groups)
  {
    ConvertBelow(argp, None, 0, Tables(Prefix(flags), [], [], 0));
  }
}
