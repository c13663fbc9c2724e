/** The option tables argp builds from a tree of parsers, as values: what one walk
    over the tree measures and what the second walk writes. */
module ArgpSpec {
  import opened Common

  /** One row of an option vector, its terminator excluded. */
  datatype Opt = Opt(name: Option<string>, key: int, arg: bool, optional: bool, alias: bool, doc: bool)

  /** A null child vector is an empty one. */
  datatype Argp = Argp(options: Option<seq<Opt>>, parser: bool, children: seq<Argp>)

  datatype LongRow = LongRow(name: string, hasArg: nat, val: int)

  datatype Group = Group(options: seq<Opt>, parser: bool, shortEnd: nat,
                         parent: Option<nat>, index: nat, inputs: nat, children: nat)

  datatype Tables = Tables(short: string, long: seq<LongRow>, groups: seq<Group>, slots: nat)

  // ---- rows ------------------------------------------------------------------------------

  /** Printable in the C locale. */
  predicate IsPrint(k: int) { 32 <= k <= 126 }

  predicate IsShort(o: Opt) { !o.doc && 0 < o.key <= 255 && IsPrint(o.key) }

  /** The row whose argument flags and key an alias borrows: the last row up to k that is
      no alias, or the first row. */
  function Real(opts: seq<Opt>, k: nat): Opt
    requires k < |opts|
  {
    if k == 0 || !opts[k].alias then opts[k] else Real(opts, k - 1)
  }

  predicate DeclaresLetter(opts: seq<Opt>, k: nat)
    requires k < |opts|
  {
    !Real(opts, k).doc && IsShort(opts[k])
  }

  predicate DeclaresName(opts: seq<Opt>, k: nat)
    requires k < |opts|
  {
    !Real(opts, k).doc && opts[k].name.Some?
  }

  function Colons(main: Opt): string {
    if main.arg then (if main.optional then "::" else ":") else ""
  }

  /** What row k adds to the short option string. */
  function Letter(opts: seq<Opt>, k: nat): (s: string)
    requires k < |opts|
    ensures |s| <= 3
  {
    if DeclaresLetter(opts, k) then [opts[k].key as char] + Colons(Real(opts, k)) else ""
  }

  function Letters(opts: seq<Opt>, n: nat): (s: string)
    requires n <= |opts|
    ensures |s| <= 3 * n
  {
    if n == 0 then "" else Letters(opts, n - 1) + Letter(opts, n - 1)
  }

  // ---- packed values ------------------------------------------------------------------------

  const M24: int := 0x100_0000
  const M32: int := 0x1_0000_0000
  const H24: nat := 0x80_0000
  const H32: nat := 0x8000_0000

  /** Bitwise or. */
  function OrBits(a: nat, b: nat): nat {
    if a == 0 then b
    else if b == 0 then a
    else (if a % 2 == 1 || b % 2 == 1 then 1 else 0) + 2 * OrBits(a / 2, b / 2)
  }

  /** Bitwise or of two 32-bit words. */
  function Or(a: int, b: int): nat { OrBits(a % M32, b % M32) }

  /** The value of a long option: 24 bits of key, 8 bits of group number, in a 32-bit int. */
  function Pack(opt: Opt, main: Opt, group: nat): int {
    Signed(Or(opt.key, main.key) % M24 + (group + 1) * M24, H32)
  }

  /** The arithmetic shift by 24 that recovers the group number plus one. */
  function GroupKey(v: int): int { v / M24 }

  /** The shift left and right by 8 that recovers the key with its sign. */
  function UserKey(v: int): int { Signed(Signed(v * 256, H32) / 256, H32) }

  lemma SignedRange(x: int, half: nat)
    requires half >= 1
    ensures 0 - half <= Signed(x, half) < half
  {
  }

  /** A packed value decodes to its group exactly for the first 127 groups, and then it
      exceeds every short letter and every special return value of getopt. */
  lemma GroupDecodes(opt: Opt, main: Opt, group: nat)
    ensures GroupKey(Pack(opt, main, group)) == group + 1 <==> group <= 126
    ensures group <= 126 ==> Pack(opt, main, group) >= M24
  {
    var u := Or(opt.key, main.key) % M24;
    var x := u + (group + 1) * M24;
    if group <= 126 {
      assert 0 <= x < M32 / 2;
    } else {
      SignedRange(x, H32);
      assert GroupKey(Signed(x, H32)) <= 127;
    }
  }

  lemma PackedKey(u: int, group: nat)
    requires 0 <= u < M24
    ensures UserKey(Signed(u + (group + 1) * M24, H32)) == Signed(u, H24)
  {
    hide Signed;
    var x := u + (group + 1) * M24;
    ShiftPair(Signed(x, H32));
    SignedMod(x);
    SignedOfMod(Signed(x, H32), u);
  }

  lemma SignedOfMod(v: int, u: int)
    requires 0 <= u < M24 && v % M24 == u
    ensures Signed(v, H24) == Signed(u, H24)
  {
  }

  /** ... and to the key's low 24 bits, sign-extended, whatever the group. */
  lemma KeyDecodes(opt: Opt, main: Opt, group: nat)
    ensures UserKey(Pack(opt, main, group)) == Signed(Or(opt.key, main.key), H24)
  {
    hide Or, Signed, UserKey;
    var w := Or(opt.key, main.key);
    PackedKey(w % M24, group);
    assert Signed(w % M24, H24) == Signed(w, H24) by { SignedOfMod(w, w % M24); }
  }

  lemma SignedMod(x: int)
    ensures Signed(x, H32) % M24 == x % M24
  {
    var q := x / M32;
    assert x == q * M32 + x % M32;
    if x % M32 < M32 / 2 {
      assert Signed(x, H32) == x - q * M32 == x - (256 * q) * M24;
      ModShift(x, 256 * q);
    } else {
      assert Signed(x, H32) == x - q * M32 - M32 == x - (256 * q + 256) * M24;
      ModShift(x, 256 * q + 256);
    }
  }

  lemma ModShift(x: int, k: int)
    ensures (x - k * M24) % M24 == x % M24
  {
  }

  /** Shifting a word left by 8 and right again keeps the low 24 bits, with sign. */
  lemma ShiftPair(v: int)
    ensures UserKey(v) == Signed(v, H24)
  {
    var r := v % M24;
    assert (v * 256) % M32 == 256 * r by {
      assert v == (v / M24) * M24 + r;
      assert v * 256 == (v / M24) * M32 + 256 * r;
    }
  }

  lemma {:induction false} OrSelf(a: nat)
    ensures OrBits(a, a) == a
  {
    if a > 0 { OrSelf(a / 2); }
  }

  /** A row that is no alias, or an alias without a key of its own, keeps the key itself. */
  lemma OrKeeps(k: int)
    ensures Or(k, k) == k % M32 && Or(0, k) == k % M32
  {
    OrSelf(k % M32);
  }

  // ---- the second walk ----------------------------------------------------------------------

  predicate HasName(long: seq<LongRow>, name: string) {
    exists k :: 0 <= k < |long| && long[k].name == name
  }

  function HasArg(main: Opt): nat {
    if main.arg then (if main.optional then 2 else 1) else 0
  }

  /** Row k of a vector, entered as a long option of a group unless its name is taken. */
  function AddName(long: seq<LongRow>, opts: seq<Opt>, k: nat, group: nat): seq<LongRow>
    requires k < |opts|
  {
    var o, main := opts[k], Real(opts, k);
    if DeclaresName(opts, k) && !HasName(long, o.name.value)
    then long + [LongRow(o.name.value, HasArg(main), Pack(o, main, group))] else long
  }

  function AddNames(long: seq<LongRow>, opts: seq<Opt>, n: nat, group: nat): seq<LongRow>
    requires n <= |opts|
  {
    if n == 0 then long else AddName(AddNames(long, opts, n - 1, group), opts, n - 1, group)
  }

  predicate IsGroup(argp: Argp) { argp.options.Some? || argp.parser }

  function Rows(argp: Argp): seq<Opt> {
    if argp.options.Some? then argp.options.value else []
  }

  /** Enter one parser of the tree, its children excluded. */
  function Enter(argp: Argp, parent: Option<nat>, index: nat, t: Tables): Tables
    requires IsGroup(argp)
  {
    var rows := Rows(argp);
    var short := t.short + Letters(rows, |rows|);
    Tables(short, AddNames(t.long, rows, |rows|, |t.groups|),
           t.groups + [Group(rows, argp.parser, |short|, parent, index, t.slots, |argp.children|)],
           t.slots + |argp.children|)
  }

  function Convert(argp: Argp, parent: Option<nat>, index: nat, t: Tables): Tables
    decreases argp, 1
  {
    if IsGroup(argp) then
      ConvertAll(argp.children, Some(|t.groups|), 0, Enter(argp, parent, index, t))
    else
      ConvertAll(argp.children, None, 0, t)
  }

  function ConvertAll(cs: seq<Argp>, parent: Option<nat>, index: nat, t: Tables): Tables
    decreases cs, 0
  {
    if cs == [] then t
    else ConvertAll(cs[1..], parent, index + 1, Convert(cs[0], parent, index, t))
  }

  datatype Flags = Flags(inOrder: bool, noArgs: bool)

  function Prefix(flags: Flags): string {
    if flags.inOrder then "-" else if flags.noArgs then "+" else ""
  }

  function ParserTables(argp: Argp, flags: Flags): Tables {
    Convert(argp, None, 0, Tables(Prefix(flags), [], [], 0))
  }

  // ---- the first walk -----------------------------------------------------------------------

  datatype Sizes = Sizes(short: nat, long: nat, groups: nat, inputs: nat)
  {
    function Plus(s: Sizes): Sizes {
      Sizes(short + s.short, long + s.long, groups + s.groups, inputs + s.inputs)
    }
  }

  function SizesOf(argp: Argp): Sizes
    decreases argp, 1
  {
    var n := |Rows(argp)|;
    Sizes(3 * n, n, if IsGroup(argp) then 1 else 0, |argp.children|).Plus(SizesOfAll(argp.children))
  }

  function SizesOfAll(cs: seq<Argp>): Sizes
    decreases cs, 0
  {
    if cs == [] then Sizes(0, 0, 0, 0) else SizesOf(cs[0]).Plus(SizesOfAll(cs[1..]))
  }

  function ShortRoom(argp: Argp, flags: Flags): nat {
    (if flags.noArgs then 0 else 1) + SizesOf(argp).short
  }

  // ---- what is written fits what was measured --------------------------------------------------

  /** Characters of the short option string a parser and its children write. */
  function Used(argp: Argp): nat
    decreases argp, 1
  {
    |Letters(Rows(argp), |Rows(argp)|)| + UsedAll(argp.children)
  }

  function UsedAll(cs: seq<Argp>): nat
    decreases cs, 0
  {
    if cs == [] then 0 else Used(cs[0]) + UsedAll(cs[1..])
  }

  /** Every row of the vector takes the full three characters. */
  ghost predicate FullRows(opts: seq<Opt>) {
    forall k :: 0 <= k < |opts| ==> |Letter(opts, k)| == 3
  }

  ghost predicate Full(argp: Argp)
    decreases argp, 1
  {
    FullRows(Rows(argp)) && FullAll(argp.children)
  }

  ghost predicate FullAll(cs: seq<Argp>)
    decreases cs, 0
  {
    cs == [] || (Full(cs[0]) && FullAll(cs[1..]))
  }

  lemma {:induction false} LettersFull(opts: seq<Opt>, n: nat)
    requires n <= |opts|
    ensures |Letters(opts, n)| == 3 * n <==> forall k :: 0 <= k < n ==> |Letter(opts, k)| == 3
  {
    hide Letter;
    if n > 0 { LettersFull(opts, n - 1); }
  }

  lemma {:induction false} UsedBound(argp: Argp)
    ensures Used(argp) <= SizesOf(argp).short
    ensures Used(argp) == SizesOf(argp).short <==> Full(argp)
    decreases argp, 1
  {
    LettersFull(Rows(argp), |Rows(argp)|);
    UsedAllBound(argp.children);
  }

  lemma {:induction false} UsedAllBound(cs: seq<Argp>)
    ensures UsedAll(cs) <= SizesOfAll(cs).short
    ensures UsedAll(cs) == SizesOfAll(cs).short <==> FullAll(cs)
    decreases cs, 0
  {
    if cs != [] {
      UsedBound(cs[0]);
      UsedAllBound(cs[1..]);
    }
  }

  lemma {:induction false} AddNamesBound(long: seq<LongRow>, opts: seq<Opt>, n: nat, group: nat)
    requires n <= |opts|
    ensures |long| <= |AddNames(long, opts, n, group)| <= |long| + n
  {
    if n > 0 { AddNamesBound(long, opts, n - 1, group); }
  }

  /** The second walk writes exactly as many groups and letters as counted, and at most as
      many long options and child slots. */
  ghost predicate Grew(t: Tables, t': Tables, used: nat, sizes: Sizes) {
    && |t'.short| == |t.short| + used
    && |t.long| <= |t'.long| <= |t.long| + sizes.long
    && |t'.groups| == |t.groups| + sizes.groups
    && t.slots <= t'.slots <= t.slots + sizes.inputs
  }

  lemma {:induction false} ConvertGrows(argp: Argp, parent: Option<nat>, index: nat, t: Tables)
    ensures Grew(t, Convert(argp, parent, index, t), Used(argp), SizesOf(argp))
    decreases argp, 1
  {
    if IsGroup(argp) {
      AddNamesBound(t.long, Rows(argp), |Rows(argp)|, |t.groups|);
      ConvertAllGrows(argp.children, Some(|t.groups|), 0, Enter(argp, parent, index, t));
    } else {
      ConvertAllGrows(argp.children, None, 0, t);
    }
  }

  lemma {:induction false} ConvertAllGrows(cs: seq<Argp>, parent: Option<nat>, index: nat, t: Tables)
    ensures Grew(t, ConvertAll(cs, parent, index, t), UsedAll(cs), SizesOfAll(cs))
    decreases cs, 0
  {
    if cs != [] {
      ConvertGrows(cs[0], parent, index, t);
      ConvertAllGrows(cs[1..], parent, index + 1, Convert(cs[0], parent, index, t));
    }
  }

  /** The tables fit the storage reserved for them -- the group count exactly -- except
      that the short option string with its terminator fits if and only if a place was
      reserved for its prefix or some row of the tree takes fewer than three characters. */
  lemma TablesFit(argp: Argp, flags: Flags)
    ensures var t, s := ParserTables(argp, flags), SizesOf(argp);
      && |t.groups| == s.groups && |t.long| <= s.long && t.slots <= s.inputs
      && (|t.short| <= ShortRoom(argp, flags) <==> !flags.noArgs || !Full(argp))
  {
    ConvertGrows(argp, None, 0, Tables(Prefix(flags), [], [], 0));
    UsedBound(argp);
  }

  /** Without arguments and with no option at all, the prefix alone overflows. */
  lemma NoArgsOverflows()
    ensures var argp, flags := Argp(Some([]), true, []), Flags(false, true);
      |ParserTables(argp, flags).short| > ShortRoom(argp, flags)
  {
    assert Letters([], 0) == "";
    assert Full(Argp(Some([]), true, [])) by { assert FullRows([]); }
    TablesFit(Argp(Some([]), true, []), Flags(false, true));
  }
}
