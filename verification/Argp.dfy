/** The argp parser's tables, filled in place in storage of the measured size. */
module Argp {
  import opened ArgpSpec
  import opened Common
  import opened ArgpRoute
  import opened ArgpNames

  /** The first walk: add up the storage the tree needs. */
  method CalcSizes(argp: ArgpSpec.Argp, szs: Sizes) returns (r: Sizes)
    ensures r == szs.Plus(SizesOf(argp))
    decreases argp, 1
  {
    hide SizesOf, SizesOfAll;
    SizesParts(argp);
    r := szs;
    if argp.options.Some? || argp.parser {
      r := r.(groups := r.groups + 1);
      if argp.options.Some? {
        var numOpts := 0;
        while numOpts < |argp.options.value|
          invariant numOpts <= |argp.options.value|
        {
          numOpts := numOpts + 1;
        }
        r := r.(short := r.short + numOpts * 3, long := r.long + numOpts);
      }
    }
    r := CalcChildren(argp.children, r);
  }

  method CalcChildren(children: seq<ArgpSpec.Argp>, szs: Sizes) returns (r: Sizes)
    ensures r == szs.Plus(SizesOfAll(children)).Plus(Sizes(0, 0, 0, |children|))
    decreases children, 0
  {
    hide SizesOf;
    r := szs;
    var k := 0;
    assert children[0..] == children;
    while k < |children|
      invariant 0 <= k <= |children|
      invariant r.Plus(SizesOfAll(children[k..])) == szs.Plus(SizesOfAll(children)).Plus(Sizes(0, 0, 0, k))
    {
      r := CalcSizes(children[k], r);
      r := r.(inputs := r.inputs + 1);
      assert children[k..][1..] == children[k + 1..];
      k := k + 1;
    }
  }

  lemma SizesParts(argp: ArgpSpec.Argp)
    ensures SizesOf(argp)
         == Sizes(3 * |Rows(argp)|, |Rows(argp)|, if IsGroup(argp) then 1 else 0, |argp.children|)
            .Plus(SizesOfAll(argp.children))
  {
  }

  const NO_GROUP := Group([], false, 0, None, 0, 0, 0)

  predicate AllSome(s: seq<Option<LongRow>>) { forall k :: 0 <= k < |s| ==> s[k].Some? }

  /** The rows of a table, without its terminator. */
  function RowsOf(s: seq<Option<LongRow>>): (r: seq<LongRow>)
    requires AllSome(s)
    ensures |r| == |s| && forall k :: 0 <= k < |s| ==> r[k] == s[k].value
  {
    if s == [] then [] else RowsOf(s[..|s| - 1]) + [s[|s| - 1].value]
  }

  class Parser {
    const shortOpts: array<char>
    var shortEnd: nat
    const longOpts: array<Option<LongRow>>   // None is the terminator, a row with a null name
    var longEnd: nat
    const groups: array<Group>
    var egroup: nat
    var slots: nat                           // child input slots handed out
    const slotCount: nat

    /** Both tables are terminated inside their storage. */
    ghost predicate Valid()
      reads this, shortOpts, longOpts, groups
    {
      && shortEnd < shortOpts.Length && shortOpts[shortEnd] == '\0'
      && longEnd < longOpts.Length && longOpts[longEnd] == None && AllSome(longOpts[..longEnd])
      && egroup <= groups.Length && slots <= slotCount
    }

    ghost function View(): Tables
      requires Valid()
      reads this, shortOpts, longOpts, groups
    {
      Tables(shortOpts[..shortEnd], RowsOf(longOpts[..longEnd]), groups[..egroup], slots)
    }

    /** Storage as parser_init reserves it, and the tables as parser_convert starts them. */
    constructor (szs: Sizes, flags: Flags)
      requires Prefix(flags) != "" ==> szs.short >= 1
      ensures Valid() && View() == Tables(Prefix(flags), [], [], 0)
      ensures fresh(shortOpts) && fresh(longOpts) && fresh(groups)
      ensures shortOpts.Length == szs.short + 1 && longOpts.Length == szs.long + 1
      ensures groups.Length == szs.groups + 1 && slotCount == szs.inputs
    {
      shortOpts := new char[szs.short + 1];
      longOpts := new Option<LongRow>[szs.long + 1];
      groups := new Group[szs.groups + 1](_ => NO_GROUP);
      shortEnd, longEnd, egroup, slots, slotCount := 0, 0, 0, 0, szs.inputs;
      new;
      if flags.inOrder {
        shortOpts[shortEnd] := '-';
        shortEnd := shortEnd + 1;
      } else if flags.noArgs {
        shortOpts[shortEnd] := '+';
        shortEnd := shortEnd + 1;
      }
      shortOpts[shortEnd] := '\0';
      longOpts[longEnd] := None;
    }

    /** The place of a name in the long table, -1 if it is not there; without a name, the
        number of rows. */
    method FindLongOption(name: Option<string>) returns (r: int)
      requires Valid()
      ensures name.None? ==> r == |View().long|
      ensures name.Some? ==>
        && (r < 0 <==> !HasName(View().long, name.value))
        && (r >= 0 ==> r < longEnd && View().long[r].name == name.value)
        && forall j :: 0 <= j < r ==> View().long[j].name != name.value
    {
      var l := 0;
      while longOpts[l] != None
        invariant l <= longEnd
        invariant name.Some? ==> forall j :: 0 <= j < l ==> View().long[j].name != name.value
        decreases longEnd - l
      {
        if name == Some(longOpts[l].value.name) { return l; }
        l := l + 1;
      }
      return if name.None? then l else -1;
    }

    method AddShort(o: Opt, main: Opt)
      requires Valid() && IsShort(o) && shortEnd + 1 + |Colons(main)| < shortOpts.Length
      modifies this`shortEnd, shortOpts
      ensures Valid()
      ensures View() == old(View()).(short := old(View()).short + ([o.key as char] + Colons(main)))
    {
      shortOpts[shortEnd] := o.key as char;
      shortEnd := shortEnd + 1;
      if main.arg {
        shortOpts[shortEnd] := ':';
        shortEnd := shortEnd + 1;
        if main.optional {
          shortOpts[shortEnd] := ':';
          shortEnd := shortEnd + 1;
        }
      }
      shortOpts[shortEnd] := '\0';
    }

    method AddLong(o: Opt, main: Opt, group: nat)
      requires Valid() && o.name.Some? && longEnd + 1 < longOpts.Length
      modifies this`longEnd, longOpts
      ensures Valid()
      ensures View() == old(View()).(long := old(View()).long
                                             + [LongRow(o.name.value, HasArg(main), Pack(o, main, group))])
    {
      var val := Signed(Or(o.key, main.key) % M24 + (group + 1) * M24, H32);
      longOpts[longEnd] := Some(LongRow(o.name.value, if main.arg then (if main.optional then 2 else 1) else 0, val));
      longEnd := longEnd + 1;
      longOpts[longEnd] := None;
      assert longOpts[..longEnd] == old(longOpts[..longEnd]) + [longOpts[longEnd - 1]];
    }

    /** Enter row k, whose argument flags come from row `main`. */
    method AddRow(rows: seq<Opt>, k: nat, main: Opt)
      requires Valid() && k < |rows| && main == Real(rows, k)
      requires shortEnd + |Letter(rows, k)| < shortOpts.Length && longEnd + 1 < longOpts.Length
      modifies this`shortEnd, shortOpts, this`longEnd, longOpts
      ensures Valid()
      ensures View() == old(View()).(short := old(View()).short + Letter(rows, k),
                                     long := AddName(old(View()).long, rows, k, egroup))
    {
      hide Pack, HasArg, Colons;
      var o := rows[k];
      assert View().short + "" == View().short;
      if !main.doc {
        if IsShort(o) { AddShort(o, main); }
        if o.name.Some? {
          var at := FindLongOption(o.name);
          if at < 0 { AddLong(o, main, egroup); }
        }
      }
    }

    /** Enter the rows of one option vector. */
    method AddOptions(rows: seq<Opt>)
      requires Valid() && shortEnd + |Letters(rows, |rows|)| < shortOpts.Length
      requires longEnd + |rows| < longOpts.Length
      modifies this`shortEnd, shortOpts, this`longEnd, longOpts
      ensures Valid()
      ensures View() == old(View()).(short := old(View()).short + Letters(rows, |rows|),
                                     long := AddNames(old(View()).long, rows, |rows|, egroup))
    {
      hide Letter, AddName, Real, Letters, AddNames;
      ghost var t := View();
      RowsBegin(t.short, t.long, rows, egroup);
      if |rows| == 0 { return; }
      var main := rows[0];
      var k := 0;
      while k < |rows|
        invariant 0 <= k <= |rows| && Valid()
        invariant main == if k == 0 then rows[0] else Real(rows, k - 1)
        invariant View() == t.(short := t.short + Letters(rows, k), long := AddNames(t.long, rows, k, egroup))
        invariant longEnd + |rows| - k < longOpts.Length
      {
        RealStep(rows, k);
        if !rows[k].alias { main := rows[k]; }
        LettersGrow(rows, k);
        AddRow(rows, k, main);
        RowsStep(t.short, t.long, rows, k, egroup);
        AddNameBound(AddNames(t.long, rows, k, egroup), rows, k, egroup);
        k := k + 1;
      }
    }

    /** The storage left is enough for the parser and its children. */
    ghost predicate Room(used: nat, sizes: Sizes)
      reads this
    {
      && shortEnd + used < shortOpts.Length && longEnd + sizes.long < longOpts.Length
      && egroup + sizes.groups <= groups.Length && slots + sizes.inputs <= slotCount
    }

    /** The second walk: enter a parser, then its children, in preorder. */
    method ConvertOptions(argp: ArgpSpec.Argp, parent: Option<nat>, index: nat)
      requires Valid() && Room(Used(argp), SizesOf(argp))
      modifies this`shortEnd, shortOpts, this`longEnd, longOpts, this`egroup, groups, this`slots
      ensures Valid() && View() == Convert(argp, parent, index, old(View()))
      decreases argp, 1
    {
      hide Used, SizesOf, Enter;
      UsedParts(argp);
      var me := None;
      if argp.options.Some? || argp.parser {
        me := Some(egroup);
        EnterGroup(argp, parent, index);
      }
      ConvertChildren(argp.children, me);
    }

    /** Enter one parser as the next group. */
    method EnterGroup(argp: ArgpSpec.Argp, parent: Option<nat>, index: nat)
      requires Valid() && IsGroup(argp)
      requires Room(|Letters(Rows(argp), |Rows(argp)|)|, Sizes(0, |Rows(argp)|, 1, |argp.children|))
      modifies this`shortEnd, shortOpts, this`longEnd, longOpts, this`egroup, groups, this`slots
      ensures Valid() && View() == Enter(argp, parent, index, old(View()))
      ensures shortEnd == old(shortEnd) + |Letters(Rows(argp), |Rows(argp)|)| && longEnd <= old(longEnd) + |Rows(argp)|
      ensures egroup == old(egroup) + 1 && slots == old(slots) + |argp.children|
    {
      hide Letters, AddNames;
      AddNamesBound(View().long, Rows(argp), |Rows(argp)|, egroup);
      if argp.options.Some? {
        AddOptions(argp.options.value);
      } else {
        NoRows(View().short, View().long, egroup);
      }
      var numChildren := 0;
      while numChildren < |argp.children|
        invariant numChildren <= |argp.children|
      {
        numChildren := numChildren + 1;
      }
      groups[egroup] := Group(Rows(argp), argp.parser, shortEnd, parent, index, slots, numChildren);
      slots := slots + numChildren;
      egroup := egroup + 1;
    }

    method ConvertChildren(children: seq<ArgpSpec.Argp>, parent: Option<nat>)
      requires Valid() && Room(UsedAll(children), SizesOfAll(children))
      modifies this`shortEnd, shortOpts, this`longEnd, longOpts, this`egroup, groups, this`slots
      ensures Valid() && View() == ConvertAll(children, parent, 0, old(View()))
      decreases children, 0
    {
      hide Used, SizesOf, Convert;
      ghost var goal := ConvertAll(children, parent, 0, View());
      var index := 0;
      assert children[0..] == children;
      while index < |children|
        invariant 0 <= index <= |children| && Valid()
        invariant Room(UsedAll(children[index..]), SizesOfAll(children[index..]))
        invariant ConvertAll(children[index..], parent, index, View()) == goal
      {
        assert children[index..][1..] == children[index + 1..];
        ConvertGrows(children[index], parent, index, View());
        ConvertOptions(children[index], parent, index);
        index := index + 1;
      }
    }

    /** The group that declared a short letter, or the group named by the high bits of a
        long value, and the key its parser receives. */
    method ParseOpt(opt: int) returns (target: Option<(nat, int)>)
      requires Valid() && (GroupKey(opt) == 0 || 1 <= GroupKey(opt) <= egroup)
      ensures target == Dispatch(View(), opt)
    {
      var groupKey := opt / M24;
      target := None;
      if groupKey == 0 {
        var at := Strchr(shortOpts[..shortEnd], (opt % 256) as char);
        if at.Some? {
          var g := 0;
          while g < egroup
            invariant g <= egroup && Owner(View().groups, at.value, 0) == Owner(View().groups, at.value, g)
          {
            if groups[g].shortEnd > at.value { return Some((g, opt)); }
            g := g + 1;
          }
        }
      } else {
        target := Some((groupKey - 1, Signed(Signed(opt * 256, H32) / 256, H32)));
      }
    }
  }

  /** Reserve the storage and fill it.  The flags exclude exactly the trees whose short
      option string would run past its end. */
  method ParserInit(argp: ArgpSpec.Argp, flags: Flags) returns (parser: Parser)
    requires !flags.noArgs || !Full(argp)
    ensures parser.Valid() && parser.View() == ParserTables(argp, flags)
  {
    hide Used, SizesOf, Convert, Full;
    var szs := CalcSizes(argp, Sizes(if flags.noArgs then 0 else 1, 0, 0, 0));
    UsedBound(argp);
    parser := new Parser(szs, flags);
    parser.ConvertOptions(argp, None, 0);
  }

  lemma UsedParts(argp: ArgpSpec.Argp)
    ensures Used(argp) == |Letters(Rows(argp), |Rows(argp)|)| + UsedAll(argp.children)
    ensures SizesOf(argp).long == |Rows(argp)| + SizesOfAll(argp.children).long
    ensures SizesOf(argp).groups == (if IsGroup(argp) then 1 else 0) + SizesOfAll(argp.children).groups
    ensures SizesOf(argp).inputs == |argp.children| + SizesOfAll(argp.children).inputs
    ensures !IsGroup(argp) ==> Rows(argp) == []
  {
  }

  lemma NoRows(short: string, long: seq<LongRow>, group: nat)
    ensures short + Letters([], 0) == short && AddNames(long, [], 0, group) == long
  {
  }

  lemma RowsBegin(short: string, long: seq<LongRow>, rows: seq<Opt>, group: nat)
    ensures short + Letters(rows, 0) == short && AddNames(long, rows, 0, group) == long
  {
  }

  lemma RowsStep(short: string, long: seq<LongRow>, rows: seq<Opt>, k: nat, group: nat)
    requires k < |rows|
    ensures short + Letters(rows, k) + Letter(rows, k) == short + Letters(rows, k + 1)
    ensures AddName(AddNames(long, rows, k, group), rows, k, group) == AddNames(long, rows, k + 1, group)
  {
  }

  lemma RealStep(rows: seq<Opt>, k: nat)
    requires k < |rows|
    ensures Real(rows, k) == if k == 0 || !rows[k].alias then rows[k] else Real(rows, k - 1)
  {
  }

  lemma AddNameBound(long: seq<LongRow>, rows: seq<Opt>, k: nat, group: nat)
    requires k < |rows|
    ensures |long| <= |AddName(long, rows, k, group)| <= |long| + 1
  {
  }

  lemma {:induction false} LettersPrefix(rows: seq<Opt>, j: nat, k: nat)
    requires j <= k <= |rows|
    ensures |Letters(rows, j)| <= |Letters(rows, k)|
  {
    hide Letter;
    if j < k { LettersPrefix(rows, j, k - 1); }
  }

  lemma LettersGrow(rows: seq<Opt>, k: nat)
    requires k < |rows|
    ensures |Letters(rows, k)| + |Letter(rows, k)| <= |Letters(rows, |rows|)|
  {
    LettersPrefix(rows, k + 1, |rows|);
  }
}
