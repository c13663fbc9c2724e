/** Which parser an option ends up with: short letters by their position in the short
    option string, long ones by the group packed into their value. */
module ArgpRoute {
  import opened ArgpSpec
  import opened Common

  // ---- the short option string falls into one segment per group -----------------------------

  function Text(groups: seq<Group>, n: nat): string
    requires n <= |groups|
  {
    if n == 0 then "" else Text(groups, n - 1) + Letters(groups[n - 1].options, |groups[n - 1].options|)
  }

  ghost predicate Segmented(prefix: string, t: Tables) {
    && t.short == prefix + Text(t.groups, |t.groups|)
    && forall g :: 0 <= g < |t.groups| ==> t.groups[g].shortEnd == |prefix| + |Text(t.groups, g + 1)|
  }

  lemma {:induction false} TextPrefix(groups: seq<Group>, more: seq<Group>, n: nat)
    requires n <= |groups|
    ensures Text(groups + more, n) == Text(groups, n)
  {
    if n > 0 { TextPrefix(groups, more, n - 1); }
  }

  lemma TextStep(prefix: string, t: Tables, t': Tables, g: Group)
    requires Segmented(prefix, t) && t'.groups == t.groups + [g]
    requires t'.short == t.short + Letters(g.options, |g.options|) && g.shortEnd == |t'.short|
    ensures Segmented(prefix, t')
  {
    hide Letters;
    TextPrefix(t.groups, [g], |t.groups|);
    forall h | 0 <= h < |t'.groups| ensures t'.groups[h].shortEnd == |prefix| + |Text(t'.groups, h + 1)| {
      if h < |t.groups| { TextPrefix(t.groups, [g], h + 1); }
    }
  }

  lemma EnterSegmented(prefix: string, argp: Argp, parent: Option<nat>, index: nat, t: Tables)
    requires IsGroup(argp) && Segmented(prefix, t)
    ensures Segmented(prefix, Enter(argp, parent, index, t))
  {
    hide Segmented, Letters, AddNames;
    var t' := Enter(argp, parent, index, t);
    TextStep(prefix, t, t', t'.groups[|t.groups|]);
  }

  lemma {:induction false} ConvertSegmented(prefix: string, argp: Argp, parent: Option<nat>, index: nat, t: Tables)
    requires Segmented(prefix, t)
    ensures Segmented(prefix, Convert(argp, parent, index, t))
    decreases argp, 1
  {
    if IsGroup(argp) {
      EnterSegmented(prefix, argp, parent, index, t);
      AllSegmented(prefix, argp.children, Some(|t.groups|), 0, Enter(argp, parent, index, t));
    } else {
      AllSegmented(prefix, argp.children, None, 0, t);
    }
  }

  lemma {:induction false} AllSegmented(prefix: string, cs: seq<Argp>, parent: Option<nat>, index: nat, t: Tables)
    requires Segmented(prefix, t)
    ensures Segmented(prefix, ConvertAll(cs, parent, index, t))
    decreases cs, 0
  {
    if cs != [] {
      ConvertSegmented(prefix, cs[0], parent, index, t);
      AllSegmented(prefix, cs[1..], parent, index + 1, Convert(cs[0], parent, index, t));
    }
  }

  // ---- short letters ------------------------------------------------------------------------

  /** The group declares the letter. */
  ghost predicate Declares(g: Group, c: char) {
    exists k :: 0 <= k < |g.options| && DeclaresLetter(g.options, k) && g.options[k].key == c as int
  }

  /** The group declares ':' itself as a letter, or a letter that takes an argument. */
  ghost predicate PutsColon(g: Group) {
    exists k :: 0 <= k < |g.options| && DeclaresLetter(g.options, k)
                && (g.options[k].key == ':' as int || Real(g.options, k).arg)
  }

  /** The group adds the character to the short option string. */
  predicate Writes(g: Group, c: char) { c in Letters(g.options, |g.options|) }

  lemma {:induction false} LettersHold(opts: seq<Opt>, n: nat, c: char)
    requires n <= |opts|
    ensures c in Letters(opts, n) <==> exists k :: 0 <= k < n && c in Letter(opts, k)
  {
    hide Letter;
    if n > 0 { LettersHold(opts, n - 1, c); }
  }

  lemma LetterHolds(opts: seq<Opt>, k: nat, c: char)
    requires k < |opts|
    ensures c in Letter(opts, k) <==>
            DeclaresLetter(opts, k) && (opts[k].key == c as int || (c == ':' && Real(opts, k).arg))
  {
  }

  lemma WritesWhat(g: Group, c: char)
    ensures Writes(g, c) <==> if c == ':' then PutsColon(g) else Declares(g, c)
  {
    hide Letters, Letter, DeclaresLetter;
    LettersHold(g.options, |g.options|, c);
    forall k | 0 <= k < |g.options|
      ensures c in Letter(g.options, k) <==>
              DeclaresLetter(g.options, k) && (g.options[k].key == c as int || (c == ':' && Real(g.options, k).arg))
    {
      LetterHolds(g.options, k, c);
    }
  }

  lemma {:induction false} TextHolds(groups: seq<Group>, n: nat, c: char)
    requires n <= |groups|
    ensures c in Text(groups, n) <==> exists g :: 0 <= g < n && Writes(groups[g], c)
  {
    hide Letters;
    if n > 0 { TextHolds(groups, n - 1, c); }
  }

  lemma {:induction false} TextMonotone(groups: seq<Group>, n: nat, m: nat)
    requires n <= m <= |groups|
    ensures Text(groups, n) <= Text(groups, m)
  {
    if n < m { TextMonotone(groups, n, m - 1); }
  }

  function Strchr(s: string, c: char): (r: Option<nat>)
    ensures r.None? <==> c !in s
    ensures r.Some? ==> r.value < |s| && s[r.value] == c && c !in s[..r.value]
  {
    if s == "" then None
    else if s[0] == c then Some(0)
    else
      var r := Strchr(s[1..], c);
      if r.None? then None else Some(r.value + 1)
  }

  /** The first group from g on whose segment ends past position i. */
  function Owner(groups: seq<Group>, i: nat, g: nat): (r: Option<nat>)
    requires g <= |groups|
    decreases |groups| - g
    ensures r.Some? ==> g <= r.value < |groups| && groups[r.value].shortEnd > i
    ensures forall h :: g <= h < (if r.Some? then r.value else |groups|) ==> groups[h].shortEnd <= i
  {
    if g == |groups| then None
    else if groups[g].shortEnd > i then Some(g)
    else Owner(groups, i, g + 1)
  }

  function Route(t: Tables, c: char): Option<nat> {
    var i := Strchr(t.short, c);
    if i.None? then None else Owner(t.groups, i.value, 0)
  }

  /** g is the first group, in preorder, that adds the character. */
  ghost predicate FirstToWrite(groups: seq<Group>, g: nat, c: char) {
    && g < |groups| && Writes(groups[g], c)
    && forall h :: 0 <= h < g ==> !Writes(groups[h], c)
  }

  /** g is the first group, in preorder, that declares the letter. */
  ghost predicate FirstToDeclare(groups: seq<Group>, g: nat, c: char) {
    && g < |groups| && Declares(groups[g], c)
    && forall h :: 0 <= h < g ==> !Declares(groups[h], c)
  }

  /** A character in q but not in its prefix p occurs first between their ends. */
  lemma FirstBetween(s: string, p: string, q: string, c: char)
    requires p <= q <= s && c !in p && c in q
    ensures var r := Strchr(s, c); r.Some? && |p| <= r.value < |q|
  {
    var k :| 0 <= k < |q| && q[k] == c;
    assert s[k] == c;
    var i := Strchr(s, c).value;
    assert forall j :: 0 <= j < i ==> s[j] == s[..i][j] != c;
    assert forall j :: 0 <= j < |p| ==> p[j] == s[j] && p[j] in p;
  }

  lemma RouteSegments(prefix: string, t: Tables, c: char, g: nat)
    requires Segmented(prefix, t) && c !in prefix && FirstToWrite(t.groups, g, c)
    ensures Route(t, c) == Some(g)
  {
    hide Text, Letters, Strchr, Writes;
    var before, upto := Text(t.groups, g), Text(t.groups, g + 1);
    TextHolds(t.groups, g, c);
    TextHolds(t.groups, g + 1, c);
    TextMonotone(t.groups, g + 1, |t.groups|);
    TextMonotone(t.groups, g, g + 1);
    FirstBetween(t.short, prefix + before, prefix + upto, c);
    var i := Strchr(t.short, c).value;
    forall h | 0 <= h < g ensures t.groups[h].shortEnd <= i {
      TextMonotone(t.groups, h + 1, g);
    }
  }

  lemma NoRoute(prefix: string, t: Tables, c: char)
    requires Segmented(prefix, t) && c !in prefix
    requires forall g :: 0 <= g < |t.groups| ==> !Writes(t.groups[g], c)
    ensures Route(t, c).None?
  {
    hide Text, Letters, Writes;
    TextHolds(t.groups, |t.groups|, c);
  }

  /** A character other than the ordering prefix leads to the first group in preorder that
      adds it to the short option string, and to none when none does. */
  lemma WriterRoutes(argp: Argp, flags: Flags, c: char)
    requires c !in Prefix(flags)
    ensures var t := ParserTables(argp, flags);
      && (forall g: nat :: FirstToWrite(t.groups, g, c) <==> Route(t, c) == Some(g))
      && (Route(t, c).None? <==> forall g :: 0 <= g < |t.groups| ==> !Writes(t.groups[g], c))
  {
    hide Writes, Route, Convert, Segmented;
    var t := ParserTables(argp, flags);
    assert Segmented(Prefix(flags), Tables(Prefix(flags), [], [], 0)) by { NothingSegmented(Prefix(flags)); }
    ConvertSegmented(Prefix(flags), argp, None, 0, Tables(Prefix(flags), [], [], 0));
    if exists g :: 0 <= g < |t.groups| && Writes(t.groups[g], c) {
      var g := LeastWriting(t.groups, c);
      RouteSegments(Prefix(flags), t, c, g);
    } else {
      NoRoute(Prefix(flags), t, c);
    }
  }

  /** A short letter other than ':' and the ordering prefix reaches the first group in
      preorder that declares it, and no group when none does. */
  lemma ShortRoutes(argp: Argp, flags: Flags, c: char)
    requires c != ':' && c !in Prefix(flags)
    ensures var t := ParserTables(argp, flags);
      && (forall g: nat :: FirstToDeclare(t.groups, g, c) <==> Route(t, c) == Some(g))
      && (Route(t, c).None? <==> forall g :: 0 <= g < |t.groups| ==> !Declares(t.groups[g], c))
  {
    hide Writes, Declares, Route, ParserTables;
    var t := ParserTables(argp, flags);
    WriterRoutes(argp, flags, c);
    forall g | 0 <= g < |t.groups| ensures Writes(t.groups[g], c) <==> Declares(t.groups[g], c) {
      WritesWhat(t.groups[g], c);
    }
  }

  /** The value ':', with which the scanner may report a missing argument, reaches the first
      group that declares ':' or any letter with an argument, and no group when none does. */
  lemma ColonRoutes(argp: Argp, flags: Flags)
    ensures var t := ParserTables(argp, flags);
      && (forall g: nat :: Route(t, ':') == Some(g) <==>
            && g < |t.groups| && PutsColon(t.groups[g])
            && forall h :: 0 <= h < g ==> !PutsColon(t.groups[h]))
      && (Route(t, ':').None? <==> forall g :: 0 <= g < |t.groups| ==> !PutsColon(t.groups[g]))
  {
    hide Writes, PutsColon, Route, ParserTables;
    var t := ParserTables(argp, flags);
    WriterRoutes(argp, flags, ':');
    forall g | 0 <= g < |t.groups| ensures Writes(t.groups[g], ':') <==> PutsColon(t.groups[g]) {
      WritesWhat(t.groups[g], ':');
    }
  }

  lemma NothingSegmented(prefix: string)
    ensures Segmented(prefix, Tables(prefix, [], [], 0))
  {
  }

  lemma LeastWriting(groups: seq<Group>, c: char) returns (g: nat)
    requires exists g :: 0 <= g < |groups| && Writes(groups[g], c)
    ensures FirstToWrite(groups, g, c)
  {
    g := 0;
    while !Writes(groups[g], c)
      invariant g < |groups|
      invariant forall h :: 0 <= h < g ==> !Writes(groups[h], c)
      invariant exists h :: g <= h < |groups| && Writes(groups[h], c)
      decreases |groups| - g
    {
      g := g + 1;
    }
  }

  /** The prefix character itself, as a letter, always reaches the first group: the group that
      should have it exactly when that is the first one. */
  lemma PrefixRoutesFirst(argp: Argp, flags: Flags)
    requires Prefix(flags) != "" && |ParserTables(argp, flags).groups| > 0
    ensures var t, c := ParserTables(argp, flags), Prefix(flags)[0];
      && Route(t, c) == Some(0)
      && forall g: nat :: FirstToDeclare(t.groups, g, c) ==> (Route(t, c) == Some(g) <==> g == 0)
  {
    hide Convert;
    ConvertSegmented(Prefix(flags), argp, None, 0, Tables(Prefix(flags), [], [], 0));
  }

  /** With arguments in order, a letter '-' that only the second parser declares is handed to
      the first. */
  lemma PrefixMisroutes()
    ensures var dash := Argp(Some([Opt(None, '-' as int, false, false, false, false)]), true, []);
      var t := ParserTables(Argp(Some([]), true, [dash]), Flags(true, false));
      FirstToDeclare(t.groups, 1, '-') && Route(t, '-') == Some(0)
  {
    var rows := [Opt(None, '-' as int, false, false, false, false)];
    var dash := Argp(Some(rows), true, []);
    var top := Argp(Some([]), true, [dash]);
    var t := ParserTables(top, Flags(true, false));
    var t0 := Tables("-", [], [], 0);
    var t1 := Enter(top, None, 0, t0);
    assert Convert(top, None, 0, t0) == ConvertAll([dash], Some(0), 0, t1);
    var t2 := Enter(dash, Some(0), 0, t1);
    assert Convert(dash, Some(0), 0, t1) == ConvertAll([], Some(1), 0, t2) == t2;
    assert [dash][1..] == [];
    assert t == t2;
    assert t.groups[0].options == [] && t.groups[1].options == rows;
    assert DeclaresLetter(rows, 0) && rows[0].key == '-' as int;
    PrefixRoutesFirst(top, Flags(true, false));
  }
}
