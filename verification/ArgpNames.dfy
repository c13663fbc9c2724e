/** Long options: each name is entered once, by the first row in preorder that declares
    it, with the group and key of that row packed into its value. */
module ArgpNames {
  import opened ArgpSpec
  import opened Common
  import opened ArgpRoute

  /** Row k of group g declares the name; of the last group only m rows are considered. */
  ghost predicate NamedAt(groups: seq<Group>, m: nat, g: nat, k: nat, name: string) {
    && g < |groups| && k < |groups[g].options| && (g == |groups| - 1 ==> k < m)
    && DeclaresName(groups[g].options, k) && groups[g].options[k].name == Some(name)
  }

  /** The entry is made by row k of group g, and no earlier row declares its name. */
  ghost predicate EnteredBy(groups: seq<Group>, m: nat, row: LongRow, g: nat, k: nat) {
    && NamedAt(groups, m, g, k, row.name)
    && row.val == Pack(groups[g].options[k], Real(groups[g].options, k), g)
    && row.hasArg == HasArg(Real(groups[g].options, k))
    && forall h, j :: NamedAt(groups, m, h, j, row.name) ==> g < h || (g == h && k <= j)
  }

  ghost predicate Entered(groups: seq<Group>, m: nat, row: LongRow) {
    exists g, k :: EnteredBy(groups, m, row, g, k)
  }

  ghost predicate OneRowPerName(long: seq<LongRow>) {
    forall i, j :: 0 <= i < j < |long| ==> long[i].name != long[j].name
  }

  ghost predicate NamesOk(groups: seq<Group>, m: nat, long: seq<LongRow>) {
    && (forall i :: 0 <= i < |long| ==> Entered(groups, m, long[i]))
    && (forall g, k, name :: NamedAt(groups, m, g, k, name) ==> HasName(long, name))
    && OneRowPerName(long)
  }

  lemma EnteredStays(groups: seq<Group>, m: nat, groups': seq<Group>, m': nat, row: LongRow)
    requires Entered(groups, m, row)
    requires forall g: nat, k, name :: NamedAt(groups, m, g, k, name) ==>
               NamedAt(groups', m', g, k, name) && groups'[g].options == groups[g].options
    requires forall g, k :: NamedAt(groups', m', g, k, row.name) && !NamedAt(groups, m, g, k, row.name) ==>
               forall h, j :: NamedAt(groups, m, h, j, row.name) ==> h < g || (h == g && j < k)
    ensures Entered(groups', m', row)
  {
    var g: nat, k: nat :| EnteredBy(groups, m, row, g, k);
    assert EnteredBy(groups', m', row, g, k);
  }

  /** A new group of which no row is considered yet. */
  lemma GroupOpens(groups: seq<Group>, m: nat, x: Group, long: seq<LongRow>)
    requires NamesOk(groups, m, long) && (groups != [] ==> m == |groups[|groups| - 1].options|)
    ensures NamesOk(groups + [x], 0, long)
  {
    var groups' := groups + [x];
    forall g, k, name ensures NamedAt(groups', 0, g, k, name) <==> NamedAt(groups, m, g, k, name) {
    }
    forall i | 0 <= i < |long| ensures Entered(groups', 0, long[i]) {
      EnteredStays(groups, m, groups', 0, long[i]);
    }
  }

  /** One more row of the last group is considered: at most it is new. */
  lemma OneMoreRow(groups: seq<Group>, n: nat, m: nat)
    requires groups != [] && n < |groups[|groups| - 1].options| && m == n + 1
    ensures forall g, k, name :: NamedAt(groups, n, g, k, name) ==> NamedAt(groups, m, g, k, name)
    ensures forall g: nat, k: nat, name :: NamedAt(groups, m, g, k, name) && !NamedAt(groups, n, g, k, name) ==>
              g == |groups| - 1 && k == n && DeclaresName(groups[g].options, n)
              && groups[g].options[n].name == Some(name)
  {
  }

  lemma NamesStay(groups: seq<Group>, n: nat, m: nat, long: seq<LongRow>)
    requires groups != [] && n < |groups[|groups| - 1].options| && m == n + 1
    requires NamesOk(groups, n, long)
    ensures forall i :: 0 <= i < |long| ==> Entered(groups, m, long[i])
  {
    hide DeclaresName;
    OneMoreRow(groups, n, m);
    forall i | 0 <= i < |long| ensures Entered(groups, m, long[i]) {
      EnteredStays(groups, n, groups, m, long[i]);
    }
  }

  /** A row that declares nothing, or a name already entered, changes nothing. */
  lemma RowIgnored(groups: seq<Group>, n: nat, m: nat, long: seq<LongRow>)
    requires groups != [] && n < |groups[|groups| - 1].options| && m == n + 1
    requires NamesOk(groups, n, long)
    requires var o := groups[|groups| - 1].options;
      DeclaresName(o, n) ==> HasName(long, o[n].name.value)
    ensures NamesOk(groups, m, long)
  {
    hide DeclaresName, Entered, HasName;
    NamesStay(groups, n, m, long);
    OneMoreRow(groups, n, m);
  }

  lemma RowIsNew(groups: seq<Group>, n: nat, m: nat, long: seq<LongRow>, row: LongRow)
    requires groups != [] && n < |groups[|groups| - 1].options| && m == n + 1
    requires NamesOk(groups, n, long) && !HasName(long, row.name)
    requires var o := groups[|groups| - 1].options;
      && DeclaresName(o, n) && o[n].name == Some(row.name)
      && row.val == Pack(o[n], Real(o, n), |groups| - 1) && row.hasArg == HasArg(Real(o, n))
    ensures NamesOk(groups, m, long + [row])
  {
    hide Pack, HasArg, Real, Entered;
    var long' := long + [row];
    NamesStay(groups, n, m, long);
    OneMoreRow(groups, n, m);
    assert Entered(groups, m, row) by { NewRowEntered(groups, n, m, long, row); }
    forall g, k, name: string | NamedAt(groups, m, g, k, name) ensures HasName(long', name) {
      if NamedAt(groups, n, g, k, name) {
        var i :| 0 <= i < |long| && long[i].name == name;
        assert long'[i].name == name;
      } else {
        assert long'[|long|].name == name;
      }
    }
  }

  lemma NewRowEntered(groups: seq<Group>, n: nat, m: nat, long: seq<LongRow>, row: LongRow)
    requires groups != [] && n < |groups[|groups| - 1].options| && m == n + 1
    requires NamesOk(groups, n, long) && !HasName(long, row.name)
    requires var o := groups[|groups| - 1].options;
      && DeclaresName(o, n) && o[n].name == Some(row.name)
      && row.val == Pack(o[n], Real(o, n), |groups| - 1) && row.hasArg == HasArg(Real(o, n))
    ensures Entered(groups, m, row)
  {
    hide Pack, HasArg, Real, HasName;
    OneMoreRow(groups, n, m);
    assert EnteredBy(groups, m, row, |groups| - 1, n);
  }

  lemma {:induction false} RowsEnter(groups: seq<Group>, long: seq<LongRow>, n: nat)
    requires groups != []
    requires n <= |groups[|groups| - 1].options| && NamesOk(groups, 0, long)
    ensures NamesOk(groups, n, AddNames(long, groups[|groups| - 1].options, n, |groups| - 1))
  {
    if n > 0 {
      hide NamesOk, Pack, HasArg;
      var opts := groups[|groups| - 1].options;
      var before := AddNames(long, opts, n - 1, |groups| - 1);
      RowsEnter(groups, long, n - 1);
      var o, main := opts[n - 1], Real(opts, n - 1);
      if DeclaresName(opts, n - 1) && !HasName(before, o.name.value) {
        RowIsNew(groups, n - 1, n, before, LongRow(o.name.value, HasArg(main), Pack(o, main, |groups| - 1)));
      } else {
        RowIgnored(groups, n - 1, n, before);
      }
    }
  }

  function LastRows(groups: seq<Group>): nat {
    if groups == [] then 0 else |groups[|groups| - 1].options|
  }

  ghost predicate Named(t: Tables) { NamesOk(t.groups, LastRows(t.groups), t.long) }

  lemma EnterNamed(argp: Argp, parent: Option<nat>, index: nat, t: Tables)
    requires IsGroup(argp) && Named(t)
    ensures Named(Enter(argp, parent, index, t))
  {
    hide AddNames, NamesOk, Letters;
    var t' := Enter(argp, parent, index, t);
    GroupOpens(t.groups, LastRows(t.groups), t'.groups[|t.groups|], t.long);
    RowsEnter(t'.groups, t.long, |Rows(argp)|);
  }

  lemma {:induction false} ConvertNamed(argp: Argp, parent: Option<nat>, index: nat, t: Tables)
    requires Named(t)
    ensures Named(Convert(argp, parent, index, t))
    decreases argp, 1
  {
    hide Named;
    if IsGroup(argp) {
      EnterNamed(argp, parent, index, t);
      AllNamed(argp.children, Some(|t.groups|), 0, Enter(argp, parent, index, t));
    } else {
      AllNamed(argp.children, None, 0, t);
    }
  }

  lemma {:induction false} AllNamed(cs: seq<Argp>, parent: Option<nat>, index: nat, t: Tables)
    requires Named(t)
    ensures Named(ConvertAll(cs, parent, index, t))
    decreases cs, 0
  {
    hide Named;
    if cs != [] {
      ConvertNamed(cs[0], parent, index, t);
      AllNamed(cs[1..], parent, index + 1, Convert(cs[0], parent, index, t));
    }
  }

  // ---- what the parser is told ----------------------------------------------------------------

  /** The group an option value is handed to, and the key it is handed with. */
  function Dispatch(t: Tables, opt: int): Option<(nat, int)> {
    if GroupKey(opt) == 0 then
      var r := Route(t, (opt % 256) as char);
      if r.None? then None else Some((r.value, opt))
    else if 1 <= GroupKey(opt) <= |t.groups| then Some((GroupKey(opt) - 1, UserKey(opt)))
    else None
  }

  /** In a tree of at most 127 groups each long option has one entry, whose value reaches
      the first row in preorder that declares the name: its group, with the low 24 bits
      of its key sign-extended; and the value is no short letter, no end mark, no
      argument mark and no error mark. */
  lemma LongRoutes(argp: Argp, flags: Flags, i: nat)
    requires var t := ParserTables(argp, flags); |t.groups| <= 127 && i < |t.long|
    ensures var t := ParserTables(argp, flags);
      && t.long[i].val > 255 && t.long[i].val != -1 && t.long[i].val != 1 && t.long[i].val != '?' as int
      && exists g: nat, k: nat :: EnteredBy(t.groups, LastRows(t.groups), t.long[i], g, k)
           && Dispatch(t, t.long[i].val)
              == Some((g, Signed(Or(t.groups[g].options[k].key, Real(t.groups[g].options, k).key), H24)))
  {
    hide Convert, NamesOk, Pack, GroupKey, UserKey, Signed, Or, Route;
    var t := ParserTables(argp, flags);
    AllLongNamed(argp, flags);
    var g: nat, k: nat :| EnteredBy(t.groups, LastRows(t.groups), t.long[i], g, k);
    var opts := t.groups[g].options;
    GroupDecodes(opts[k], Real(opts, k), g);
    KeyDecodes(opts[k], Real(opts, k), g);
  }

  // ---- more groups than eight bits can number -------------------------------------------------

  const FAR := Opt(Some("far"), 1000, false, false, false, false)

  /** Parsers one inside the other, of which only the innermost has an option. */
  function Chain(n: nat): Argp {
    if n == 0 then Argp(Some([FAR]), true, []) else Argp(Some([]), true, [Chain(n - 1)])
  }

  lemma {:induction false} ChainTables(n: nat, parent: Option<nat>, index: nat, t: Tables)
    requires t.long == []
    ensures var t' := Convert(Chain(n), parent, index, t);
      && |t'.groups| == |t.groups| + n + 1 && t.groups <= t'.groups && t'.groups[|t.groups| + n].options == [FAR]
      && (forall g :: |t.groups| <= g < |t.groups| + n ==> t'.groups[g].options == [])
      && t'.short == t.short && t'.long == [LongRow("far", 0, Pack(FAR, FAR, |t.groups| + n))]
  {
    hide Pack;
    var argp := Chain(n);
    var t1 := Enter(argp, parent, index, t);
    if n == 0 {
      assert Letters([FAR], 1) == Letters([FAR], 0) + Letter([FAR], 0) == "";
      assert AddNames(t.long, [FAR], 1, |t.groups|)
          == AddName(AddNames(t.long, [FAR], 0, |t.groups|), [FAR], 0, |t.groups|);
      assert Convert(argp, parent, index, t) == t1;
    } else {
      var inner := [Chain(n - 1)];
      assert inner[1..] == [];
      assert Convert(argp, parent, index, t) == ConvertAll(inner, Some(|t.groups|), 0, t1)
          == Convert(Chain(n - 1), Some(|t.groups|), 0, t1);
      assert t1.long == [] && t1.short == t.short && |t1.groups| == |t.groups| + 1;
      ChainTables(n - 1, Some(|t.groups|), 0, t1);
    }
  }

  lemma ChainSeen(n: nat)
    ensures var t := ParserTables(Chain(n), Flags(false, false));
      && |t.groups| == n + 1 && t.short == "" && t.long == [LongRow("far", 0, Pack(FAR, FAR, n))]
      && (forall g, k :: NamedAt(t.groups, LastRows(t.groups), g, k, "far") <==> g == n && k == 0)
  {
    hide Convert, Pack;
    ChainTables(n, None, 0, Tables("", [], [], 0));
    assert DeclaresName([FAR], 0);
  }

  /** The only long option of such a tree, declared by group n alone, reaches group n with its
      key if and only if n is at most 126. */
  lemma ChainRoutes(n: nat)
    ensures var t := ParserTables(Chain(n), Flags(false, false));
      && |t.groups| == n + 1 && |t.long| == 1 && t.long[0].name == "far"
      && (forall g, k :: NamedAt(t.groups, LastRows(t.groups), g, k, "far") <==> g == n && k == 0)
      && (Dispatch(t, t.long[0].val) == Some((n, 1000)) <==> n <= 126)
  {
    hide ParserTables, NamedAt, Pack, GroupKey, UserKey, Signed, Or;
    ChainSeen(n);
    GroupDecodes(FAR, FAR, n);
    KeyDecodes(FAR, FAR, n);
    FarKey();
  }

  lemma FarKey()
    ensures Signed(Or(1000, 1000), H24) == 1000
  {
    OrKeeps(1000);
  }

  /** With 128 groups the value of the last one's option names group -129: it reaches none. */
  lemma LastGroupLost()
    ensures var t := ParserTables(Chain(127), Flags(false, false));
      && |t.groups| == 128 && NamedAt(t.groups, LastRows(t.groups), 127, 0, "far") && |t.long| == 1
      && t.long[0].name == "far" && GroupKey(t.long[0].val) == -128 && Dispatch(t, t.long[0].val).None?
  {
    hide ParserTables, NamedAt;
    ChainSeen(127);
    OrKeeps(1000);
  }

  /** Every declared name has an entry, and no name has two. */
  lemma AllLongNamed(argp: Argp, flags: Flags)
    ensures var t := ParserTables(argp, flags);
      && NamesOk(t.groups, LastRows(t.groups), t.long)
      && forall i :: 0 <= i < |t.long| ==> Entered(t.groups, LastRows(t.groups), t.long[i])
  {
    ConvertNamed(argp, None, 0, Tables(Prefix(flags), [], [], 0));
  }

  // ---- inputs of child parsers --------------------------------------------------------------------

  /** Each group has its own run of child slots, and its parent, if any, comes before it
      and has a slot for it. */
  ghost predicate SlotsOk(groups: seq<Group>, slots: nat) {
    && (forall g :: 0 <= g < |groups| ==> groups[g].inputs + groups[g].children <= slots)
    && (forall g, h :: 0 <= g < h < |groups| ==> groups[g].inputs + groups[g].children <= groups[h].inputs)
    && (forall g :: 0 <= g < |groups| && groups[g].parent.Some? ==>
          groups[g].parent.value < g && groups[g].index < groups[groups[g].parent.value].children)
  }

  ghost predicate ParentFits(groups: seq<Group>, parent: Option<nat>, index: nat, n: nat) {
    parent.Some? ==> parent.value < |groups| && index + n <= groups[parent.value].children
  }

  lemma EnterSlots(argp: Argp, parent: Option<nat>, index: nat, t: Tables)
    requires IsGroup(argp) && SlotsOk(t.groups, t.slots) && ParentFits(t.groups, parent, index, 1)
    ensures var t' := Enter(argp, parent, index, t);
      && SlotsOk(t'.groups, t'.slots) && t.groups <= t'.groups
      && ParentFits(t'.groups, Some(|t.groups|), 0, |argp.children|)
  {
    hide AddNames, Letters;
  }

  /** What every part of the walk keeps. */
  ghost predicate SlotsKept(t: Tables, t': Tables) {
    SlotsOk(t'.groups, t'.slots) && t.groups <= t'.groups
  }

  lemma {:induction false} ConvertSlots(argp: Argp, parent: Option<nat>, index: nat, t: Tables)
    requires SlotsOk(t.groups, t.slots) && ParentFits(t.groups, parent, index, 1)
    ensures SlotsKept(t, Convert(argp, parent, index, t))
    decreases argp, 1
  {
    hide SlotsOk, Enter;
    if IsGroup(argp) {
      EnterSlots(argp, parent, index, t);
      AllSlots(argp.children, Some(|t.groups|), 0, Enter(argp, parent, index, t));
    } else {
      AllSlots(argp.children, None, 0, t);
    }
  }

  lemma {:induction false} AllSlots(cs: seq<Argp>, parent: Option<nat>, index: nat, t: Tables)
    requires SlotsOk(t.groups, t.slots) && ParentFits(t.groups, parent, index, |cs|)
    ensures SlotsKept(t, ConvertAll(cs, parent, index, t))
    decreases cs, 0
  {
    hide SlotsOk;
    if cs != [] {
      ConvertSlots(cs[0], parent, index, t);
      AllSlots(cs[1..], parent, index + 1, Convert(cs[0], parent, index, t));
    }
  }

  /** The slot a child reads its input from is inside the reserved vector. */
  lemma InputSlotInRange(argp: Argp, flags: Flags, g: nat)
    requires var t := ParserTables(argp, flags); g < |t.groups| && t.groups[g].parent.Some?
    ensures var t := ParserTables(argp, flags);
      var p := t.groups[g].parent.value;
      p < g && t.groups[p].inputs + t.groups[g].index < SizesOf(argp).inputs
  {
    ConvertSlots(argp, None, 0, Tables(Prefix(flags), [], [], 0));
    TablesFit(argp, flags);
  }
}
