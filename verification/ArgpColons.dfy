/** The argument an option takes survives the tables: the scanner reads from the short option
    string what the first row that declares the letter says. */
module ArgpColons {
  import opened ArgpSpec
  import opened Common
  import opened ArgpRoute
  import opened GetoptSpec
  import opened GetoptSpell

  /** Row k of group g is the first in preorder that declares the letter. */
  ghost predicate FirstRow(groups: seq<Group>, g: nat, k: nat, c: char) {
    && FirstToDeclare(groups, g, c) && k < |groups[g].options|
    && DeclaresLetter(groups[g].options, k) && groups[g].options[k].key == c as int
    && forall j :: 0 <= j < k ==> !(DeclaresLetter(groups[g].options, j) && groups[g].options[j].key == c as int)
  }

  /** Rows from..to of a vector declare no letter. */
  predicate Silent(opts: seq<Opt>, from: nat, to: nat)
    requires to <= |opts|
  {
    forall j :: from <= j < to ==> !DeclaresLetter(opts, j)
  }

  /** The next letter declared after row k of group g is ':'. */
  ghost predicate ColonNext(groups: seq<Group>, g: nat, k: nat)
    requires g < |groups| && k < |groups[g].options|
  {
    exists h: nat, j: nat :: NextLetterAt(groups, g, k, h, j) && groups[h].options[j].key == ':' as int
  }

  /** Row j of group h is the first after row k of group g that declares a letter. */
  ghost predicate NextLetterAt(groups: seq<Group>, g: nat, k: nat, h: nat, j: nat)
    requires g < |groups| && k < |groups[g].options|
  {
    && g <= h < |groups| && j < |groups[h].options| && DeclaresLetter(groups[h].options, j)
    && (g == h ==> k < j && Silent(groups[h].options, k + 1, j))
    && (g < h ==> Silent(groups[g].options, k + 1, |groups[g].options|) && Silent(groups[h].options, 0, j))
    && (forall i :: g < i < h ==> Silent(groups[i].options, 0, |groups[i].options|))
  }

  // ---- what follows a row in the string ----------------------------------------------------------

  /** The text begins with the letter row j declares, or there is no such row and no text. */
  ghost predicate BeginsWith(tail: string, opts: seq<Opt>, j: nat)
    requires j <= |opts|
  {
    if j < |opts| && DeclaresLetter(opts, j) then tail != "" && tail[0] as int == opts[j].key else tail == ""
  }

  lemma LetterBegins(opts: seq<Opt>, k: nat)
    requires k < |opts|
    ensures BeginsWith(Letter(opts, k), opts, k)
  {
  }

  lemma LettersStep(opts: seq<Opt>, n: nat)
    requires n < |opts|
    ensures Letters(opts, n + 1) == Letters(opts, n) + Letter(opts, n)
  {
  }

  lemma Regroup(a: string, b: string, c: string)
    ensures (a + b) + c == a + (b + c)
  {
  }

  /** What rows k to n add after the rows before, and the first of them that declares a letter. */
  lemma {:induction false} RowsAfter(opts: seq<Opt>, k: nat, n: nat) returns (tail: string, j: nat)
    requires k <= n <= |opts|
    ensures Letters(opts, n) == Letters(opts, k) + tail && k <= j <= n && Silent(opts, k, j)
    ensures if j == n then tail == "" else DeclaresLetter(opts, j) && BeginsWith(tail, opts, j)
  {
    hide DeclaresLetter, Letters, Letter;
    if n == k {
      tail, j := "", n;
    } else {
      tail, j := RowsAfter(opts, k, n - 1);
      LettersStep(opts, n - 1);
      LetterBegins(opts, n - 1);
      Regroup(Letters(opts, k), tail, Letter(opts, n - 1));
      tail := tail + Letter(opts, n - 1);
      if j == n - 1 && !DeclaresLetter(opts, n - 1) { j := n; }
    }
  }

  lemma TextGrows(groups: seq<Group>, n: nat)
    requires n < |groups|
    ensures Text(groups, n + 1) == Text(groups, n) + Letters(groups[n].options, |groups[n].options|)
    ensures Letters(groups[n].options, 0) == ""
  {
  }

  /** The same for the groups from g to n. */
  lemma {:induction false} GroupsAfter(groups: seq<Group>, g: nat, n: nat) returns (tail: string, h: nat, j: nat)
    requires g <= n <= |groups|
    ensures Text(groups, n) == Text(groups, g) + tail && g <= h <= n
    ensures forall i :: g <= i < h ==> Silent(groups[i].options, 0, |groups[i].options|)
    ensures if h == n then tail == ""
            else j < |groups[h].options| && Silent(groups[h].options, 0, j) && DeclaresLetter(groups[h].options, j)
                 && BeginsWith(tail, groups[h].options, j)
  {
    hide DeclaresLetter, Text, Letters, Silent;
    if n == g {
      tail, h, j := "", n, 0;
    } else {
      tail, h, j := GroupsAfter(groups, g, n - 1);
      var opts := groups[n - 1].options;
      var more, first := RowsAfter(opts, 0, |opts|);
      TextGrows(groups, n - 1);
      Regroup(Text(groups, g), tail, more);
      tail := tail + more;
      if h == n - 1 {
        if first < |opts| { j := first; } else { h := n; }
      }
    }
  }

  /** What follows row k starts with ':' exactly when the next letter declared is ':'. */
  lemma PostStarts(groups: seq<Group>, g: nat, k: nat, inside: string, j: nat, beyond: string, h: nat, m: nat)
    requires g < |groups| && k < j <= |groups[g].options| && Silent(groups[g].options, k + 1, j)
    requires if j == |groups[g].options| then inside == ""
             else DeclaresLetter(groups[g].options, j) && BeginsWith(inside, groups[g].options, j)
    requires g < h <= |groups| && forall i :: g < i < h ==> Silent(groups[i].options, 0, |groups[i].options|)
    requires if h == |groups| then beyond == ""
             else m < |groups[h].options| && Silent(groups[h].options, 0, m) && DeclaresLetter(groups[h].options, m)
                  && BeginsWith(beyond, groups[h].options, m)
    ensures inside + beyond != "" && (inside + beyond)[0] == ':' <==> ColonNext(groups, g, k)
  {
    hide DeclaresLetter, Silent, ColonNext;
    if j < |groups[g].options| {
      OneNext(groups, g, k, g, j);
    } else if h < |groups| {
      OneNext(groups, g, k, h, m);
    } else {
      NoNext(groups, g, k);
    }
  }

  /** The short option string around the first row that declares the letter: what comes before
      does not hold it, and what comes after starts with the next letter declared. */
  lemma Around(groups: seq<Group>, g: nat, k: nat, c: char) returns (pre: string, post: string)
    requires FirstRow(groups, g, k, c) && c != ':'
    ensures Text(groups, |groups|) == pre + ([c] + Colons(Real(groups[g].options, k))) + post && c !in pre
    ensures post != "" && post[0] == ':' <==> ColonNext(groups, g, k)
  {
    var opts := groups[g].options;
    RowText(opts, k, c);
    hide Real, Colons, Declares, DeclaresLetter, Text, Letters, Letter, Silent, ColonNext, BeginsWith;
    NotBefore(groups, g, k, c);
    var inside, j := RowsAfter(opts, k + 1, |opts|);
    var beyond, h, m := GroupsAfter(groups, g + 1, |groups|);
    pre, post := Text(groups, g) + Letters(opts, k), inside + beyond;
    LettersStep(opts, k);
    TextGrows(groups, g);
    InOne(Text(groups, g), Letters(opts, k), [c] + Colons(Real(opts, k)), inside, beyond);
    PostStarts(groups, g, k, inside, j, beyond, h, m);
  }

  lemma RowText(opts: seq<Opt>, k: nat, c: char)
    requires k < |opts| && DeclaresLetter(opts, k) && opts[k].key == c as int
    ensures Letter(opts, k) == [c] + Colons(Real(opts, k))
  {
  }

  lemma InOne(a: string, b: string, c: string, d: string, e: string)
    ensures (a + ((b + c) + d)) + e == (a + b) + c + (d + e)
  {
  }

  lemma NotBefore(groups: seq<Group>, g: nat, k: nat, c: char)
    requires FirstRow(groups, g, k, c) && c != ':'
    ensures c !in Text(groups, g) + Letters(groups[g].options, k)
  {
    hide Text, Letters, Letter, DeclaresLetter;
    var opts := groups[g].options;
    TextHolds(groups, g, c);
    forall h | 0 <= h < g ensures !Writes(groups[h], c) { WritesWhat(groups[h], c); }
    LettersHold(opts, k, c);
    forall j | 0 <= j < k ensures c !in Letter(opts, j) { LetterHolds(opts, j, c); }
  }

  lemma OneNext(groups: seq<Group>, g: nat, k: nat, h: nat, j: nat)
    requires g < |groups| && k < |groups[g].options| && NextLetterAt(groups, g, k, h, j)
    ensures ColonNext(groups, g, k) <==> groups[h].options[j].key == ':' as int
  {
    hide DeclaresLetter;
    if ColonNext(groups, g, k) {
      var h': nat, j': nat :| NextLetterAt(groups, g, k, h', j') && groups[h'].options[j'].key == ':' as int;
      assert h == h' && j == j';
    }
  }

  lemma NoNext(groups: seq<Group>, g: nat, k: nat)
    requires g < |groups| && k < |groups[g].options|
    requires Silent(groups[g].options, k + 1, |groups[g].options|)
    requires forall i :: g < i < |groups| ==> Silent(groups[i].options, 0, |groups[i].options|)
    ensures !ColonNext(groups, g, k)
  {
    hide DeclaresLetter;
  }

  // ---- what the scanner reads ----------------------------------------------------------------------

  lemma WantsAround(s: string, pre: string, c: char, colons: string, post: string)
    requires s == pre + ([c] + colons) + post && c !in pre && colons in ["", ":", "::"]
    ensures c in s
    ensures Wants(s, c) == |colons| <==> |colons| == 2 || post == "" || post[0] != ':'
  {
    assert s[|pre|] == c;
    FirstIs(s, |pre|, c);
    WantsIs(s, c);
    assert forall j :: 0 <= j < |colons| ==> s[|pre| + 1 + j] == colons[j];
    assert post != "" ==> s[|pre| + 1 + |colons|] == post[0];
  }

  lemma {:induction false} FirstIs(s: string, k: nat, c: char)
    requires k < |s| && s[k] == c && c !in s[..k]
    ensures c in s && Position(s, c) == k
  {
    hide Position;
    assert forall j :: 0 <= j < k ==> s[j] == s[..k][j] != c;
    assert forall j :: 0 <= j < Position(s, c) ==> s[j] == s[..Position(s, c)][j] != c;
  }

  /** The scanner reads no argument, a required or an optional one exactly as the first row that
      declares the letter says, unless the next letter declared is ':' and the argument is not
      optional. */
  lemma ArgumentSurvives(argp: ArgpSpec.Argp, flags: Flags, g: nat, k: nat, c: char)
    requires c != ':' && c !in Prefix(flags) && FirstRow(ParserTables(argp, flags).groups, g, k, c)
    ensures var t := ParserTables(argp, flags);
      var main := Real(t.groups[g].options, k);
      && c in t.short
      && ((Wants(t.short, c) >= 1 <==> main.arg) && (Wants(t.short, c) == 2 <==> main.arg && main.optional)
          <==> (main.arg && main.optional) || !ColonNext(t.groups, g, k))
  {
    hide Wants, ColonNext, Text, ParserTables, Real;
    var t := ParserTables(argp, flags);
    var main := Real(t.groups[g].options, k);
    ShortText(argp, flags);
    var pre, post := Around(t.groups, g, k, c);
    assert t.short == (Prefix(flags) + pre) + ([c] + Colons(main)) + post;
    WantsAround(t.short, Prefix(flags) + pre, c, Colons(main), post);
  }

  /** A character in front that is another letter does not matter. */
  lemma WantsBehind(s: string, c: char)
    requires s != "" && s[0] != c && c in s
    ensures c in s[1..] && Wants(s[1..], c) == Wants(s, c)
  {
    WantsIs(s, c);
    WantsIs(s[1..], c);
  }

  lemma ShortText(argp: ArgpSpec.Argp, flags: Flags)
    ensures var t := ParserTables(argp, flags); t.short == Prefix(flags) + Text(t.groups, |t.groups|)
  {
    hide Convert;
    NothingSegmented(Prefix(flags));
    ConvertSegmented(Prefix(flags), argp, None, 0, Tables(Prefix(flags), [], [], 0));
  }

  function LetterAndColon(): seq<Opt> {
    [Opt(None, 'a' as int, false, false, false, false), Opt(None, ':' as int, false, false, false, false)]
  }

  /** A letter without argument, declared just before the letter ':', is read as one with an
      argument. */
  lemma ColonConfuses()
    ensures var t := ParserTables(Argp(Some(LetterAndColon()), true, []), Flags(false, false));
      t.short == "a:" && Wants(t.short, 'a') == 1
  {
    var rows := LetterAndColon();
    var argp := Argp(Some(rows), true, []);
    assert Letters(rows, 0) == "";
    assert Letters(rows, 1) == Letters(rows, 0) + "a";
    assert Letters(rows, 2) == Letters(rows, 1) + ":";
    var t := Tables("", [], [], 0);
    assert Convert(argp, None, 0, t) == Enter(argp, None, 0, t);
    assert Enter(argp, None, 0, t).short == "" + Letters(rows, 2) == "a:";
    WantsAround("a:", "", 'a', ":", "");
  }
}
