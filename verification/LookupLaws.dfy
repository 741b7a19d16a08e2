/**
 * What pathname translation finds, said without its loop: a path leads from
 * directory to directory along what the file systems answer. Each component
 * is looked up where the one before it has led, through whatever is mounted
 * there; a link puts its text before the rest of the path, from the directory
 * that holds it or from the root; ".." climbs down through mounts first.
 */
module LookupLaws {
  import opened Lookup

  /** A component as it can stand in a path. */
  predicate Name(c: string) {
    0 < |c| <= MAXNAMLEN && forall i :: 0 <= i < |c| ==> c[i] != '/' && c[i] != '\0'
  }

  /** The path begins with that component and nothing of it is left over. */
  predicate Splits(path: string, c: string) {
    Name(c) && c <= path && (path[|c|..] == [] || path[|c|] == '/')
  }

  /** How many slashes a path begins with. */
  function Lead(s: string): (n: nat)
    ensures n <= |s| && (forall i :: 0 <= i < n ==> s[i] == '/') && (n < |s| ==> s[n] != '/')
  {
    if s != [] && s[0] == '/' then 1 + Lead(s[1..]) else 0
  }

  function Unslashed(s: string): string {
    s[Lead(s)..]
  }

  /** Where an absolute path begins: the process's own root if it has one. */
  function TopDir(w: World): nat {
    if w.rdir.Some? then w.rdir.value else w.rootdir
  }

  /** ".." goes no further: the process's own root, or that of the system. */
  predicate IsTop(w: World, v: nat) {
    w.same(v, w.rootdir) || (w.rdir.Some? && w.same(v, w.rdir.value))
  }

  // ----- One component -----

  /** Nothing is mounted virtually in d under that name, and if anything is, d may be searched. */
  predicate NoEntry(w: World, d: nat, c: string) {
    && (w.entries(d) == [] || w.access(d).None?)
    && forall i :: 0 <= i < |w.entries(d)| ==> w.entries(d)[i].name != c
  }

  /** The k-th virtual mount of d is the first with that name. */
  predicate FirstEntry(w: World, d: nat, c: string, k: nat) {
    && k < |w.entries(d)| && w.entries(d)[k].name == c && w.access(d).None?
    && forall i :: 0 <= i < k ==> w.entries(d)[i].name != c
  }

  /** The directory's own file system knows the name. */
  predicate Looks(w: World, d: nat, c: string, raw: nat) {
    NoEntry(w, d, c) && w.lookup(d, c) == Ok(raw)
  }

  /** Each of these is the root of what is mounted on the one before it. */
  predicate Stacked(w: World, tops: seq<nat>) {
    && tops != []
    && forall i :: 0 <= i < |tops| - 1 ==>
      w.mounted(tops[i]).Some? && w.vfsRoot(w.mounted(tops[i]).value) == Ok(tops[i + 1])
  }

  /** From the vnode raw up to the one on which nothing is mounted. */
  predicate Tower(w: World, raw: nat, tops: seq<nat>) {
    Stacked(w, tops) && tops[0] == raw && w.mounted(tops[|tops| - 1]).None?
  }

  /** Down from d: each is what the one before it, the root of a file system, covers. */
  predicate Descent(w: World, d: nat, below: seq<nat>) {
    && below != [] && below[0] == d
    && (forall i :: 0 <= i < |below| - 1 ==>
         !IsTop(w, below[i]) && w.isRoot(below[i]) && below[i + 1] == w.covered(below[i]))
    && (forall i :: 0 < i < |below| - 1 ==> w.mounted(below[i]).Some?)
  }

  predicate Followed(w: World, raw: nat, left: string, want: Want) {
    w.isLink(raw) && (want.follow || left != [])
  }

  /** Why a path leads nowhere. */
  datatype Why =
    | NotDirectory
    | NameTooLong
    | NoAccess(error: Error)
    | BadVirtual(entry: nat, error: Error)
    | Absent(error: Error)
    | BadMount(raw: nat, tops: seq<nat>, error: Error)
    | TooManyLinks(raw: nat)
    | Unreadable(raw: nat, error: Error)
    | TextTooLong(raw: nat, text: string)

  /** One component dealt with. */
  datatype Hop =
    | Named(name: string, raw: nat, tops: seq<nat>)       // an ordinary name
    | Virtual(name: string, entry: nat)                   // a virtual mount
    | Up(below: seq<nat>, raw: nat, tops: seq<nat>)       // ".." of an ordinary directory
    | Stopped(below: seq<nat>)                            // ".." at the root or at a virtual mount
    | Through(name: string, raw: nat, text: string)       // a link
    | Dead(name: string, why: Why)

  function NameOf(h: Hop): string {
    if h.Up? || h.Stopped? then ".." else h.name
  }

  /** The hop goes from directory d to vnode v, which is then an entry of `parent`. */
  predicate Goes(w: World, d: nat, left: string, want: Want, h: Hop, parent: nat, v: nat) {
    match h
    case Named(c, raw, tops) =>
      && c != ".." && parent == d && Looks(w, d, c, raw) && !Followed(w, raw, left, want)
      && Tower(w, raw, tops) && v == tops[|tops| - 1]
    case Virtual(c, k) =>
      c != ".." && parent == d && FirstEntry(w, d, c, k) && w.vfsRoot(w.entries(d)[k].vfs) == Ok(v)
    case Up(below, raw, tops) =>
      && Descent(w, d, below) && parent == below[|below| - 1] && !IsTop(w, parent) && !w.isRoot(parent)
      && (|below| > 1 ==> w.mounted(parent).Some?)
      && Looks(w, parent, "..", raw) && !Followed(w, raw, left, want)
      && Tower(w, raw, tops) && v == tops[|tops| - 1]
    case Stopped(below) =>
      && Descent(w, d, below) && parent == v == below[|below| - 1]
      && (if |below| > 1 && w.mounted(v).None? then true else IsTop(w, v))
    case _ => false
  }

  function ParentOf(d: nat, h: Hop): nat {
    match h
    case Up(below, _, _) => if below == [] then d else below[|below| - 1]
    case Stopped(below) => if below == [] then d else below[|below| - 1]
    case _ => d
  }

  function TargetOf(w: World, d: nat, h: Hop): nat {
    match h
    case Named(_, raw, tops) => if tops == [] then raw else tops[|tops| - 1]
    case Up(_, raw, tops) => if tops == [] then raw else tops[|tops| - 1]
    case Stopped(below) => if below == [] then d else below[|below| - 1]
    case Virtual(_, k) =>
      if k < |w.entries(d)| && w.vfsRoot(w.entries(d)[k].vfs).Ok? then w.vfsRoot(w.entries(d)[k].vfs).value else d
    case _ => d
  }

  // ----- Whole paths -----

  /** What the caller gets at the end of a path. */
  function Given(w: World, parent: nat, v: nat, name: string, want: Want): Outcome {
    if want.dir && w.same(parent, v) then Failed(EEXIST)
    else Found(if want.dir then Some(parent) else None, if want.comp then Some(v) else None, name)
  }

  /** A path that ends where it is: the directory itself, which has no parent to give. */
  function Here(d: nat, want: Want): Outcome {
    if want.dir then Failed(EEXIST) else Found(None, if want.comp then Some(d) else None, ".")
  }

  /** An empty link stands for the directory it is in. */
  function Spelled(text: string): string {
    if text == [] then "." else text
  }

  predicate PlainLink(w: World, raw: nat, text: string) {
    w.readlink(raw) == Ok(text) && |text| <= MAXPATHLEN && forall i :: 0 <= i < |text| ==> text[i] != ML_ESCCHAR
  }

  /** c1/c2/.../cn. */
  function Joined(cs: seq<string>): string {
    if cs == [] then "" else if |cs| == 1 then cs[0] else cs[0] + "/" + Joined(cs[1..])
  }

  /** m is what the first entry of the table for `token` stands for: its variable if that is set, or its default. */
  ghost predicate Listed(table: seq<Metalink>, token: string, m: string) {
    exists k ::
      && 0 <= k < |table| && table[k].token == token && (forall j :: 0 <= j < k ==> table[j].token != token)
      && (if table[k].variable != "" then m == table[k].variable else table[k].default == Some(m))
  }

  /** What a component of a metalink is replaced by. */
  ghost predicate Replaced(w: World, c: string, m: string) {
    Name(c) && '\0' !in m && if c[0] == ML_ESCCHAR then Listed(w.metalinks, c[1..], m) else m == c
  }

  /** A link with escaped components, and its text with all of them replaced. */
  ghost predicate Metalinked(w: World, raw: nat, cs: seq<string>, ms: seq<string>, absolute: bool, text: string) {
    var slash := if absolute then "/" else "";
    && cs != [] && |cs| == |ms| && (forall i :: 0 <= i < |cs| ==> Replaced(w, cs[i], ms[i]))
    && (exists i :: 0 <= i < |cs| && cs[i] != [] && cs[i][0] == ML_ESCCHAR)
    && w.readlink(raw) == Ok(slash + Joined(cs)) && |slash + Joined(cs)| <= MAXPATHLEN
    && text == slash + Joined(ms) && |text| < MAXPATHLEN
  }

  /** The text that a link stands for. */
  ghost predicate Reads(w: World, raw: nat, text: string) {
    PlainLink(w, raw, text) || exists cs, ms, absolute :: Metalinked(w, raw, cs, ms, absolute, text)
  }

  /** The directory can be searched, but the name leads nowhere. */
  ghost predicate NameFails(w: World, d: nat, c: string, left: string, nlink: nat, want: Want, why: Why, out: Outcome) {
    match why
    case NoAccess(e) => w.entries(d) != [] && w.access(d) == Some(e) && out == Failed(e)
    case BadVirtual(k, e) => FirstEntry(w, d, c, k) && w.vfsRoot(w.entries(d)[k].vfs) == Err(e) && out == Failed(e)
    case Absent(e) =>
      && NoEntry(w, d, c) && w.lookup(d, c) == Err(e)
      && out == (if left == [] && want.dir && e != EACCES then Found(Some(d), None, c) else Failed(e))
    case BadMount(raw, tops, e) =>
      && Looks(w, d, c, raw) && !Followed(w, raw, left, want) && Stacked(w, tops) && tops[0] == raw
      && w.mounted(tops[|tops| - 1]).Some? && w.vfsRoot(w.mounted(tops[|tops| - 1]).value) == Err(e)
      && out == Failed(e)
    case TooManyLinks(raw) =>
      Looks(w, d, c, raw) && Followed(w, raw, left, want) && nlink >= MAXSYMLINKS && out == Failed(ELOOP)
    case Unreadable(raw, e) =>
      && Looks(w, d, c, raw) && Followed(w, raw, left, want) && nlink < MAXSYMLINKS
      && w.readlink(raw) == Err(e) && out == Failed(e)
    case TextTooLong(raw, text) =>
      && Looks(w, d, c, raw) && Followed(w, raw, left, want) && nlink < MAXSYMLINKS
      && Reads(w, raw, text) && |Spelled(text)| + |left| >= MAXPATHLEN && out == Failed(ENAMETOOLONG)
    case _ => false
  }

  ghost predicate Ends(w: World, d: nat, path: string, nlink: nat, want: Want, c: string, why: Why, out: Outcome) {
    if why.NotDirectory? then !w.isDir(d) && out == Failed(ENOTDIR)
    else if why.NameTooLong? then
      && w.isDir(d) && |path| > MAXNAMLEN && (forall i :: 0 <= i <= MAXNAMLEN ==> path[i] != '/')
      && out == Failed(ENAMETOOLONG)
    else
      w.isDir(d) && c != ".." && Splits(path, c) && NameFails(w, d, c, path[|c|..], nlink, want, why, out)
  }

  /** From directory d the path leads to that outcome, by those hops. */
  ghost predicate Leads(w: World, d: nat, path: string, nlink: nat, want: Want, hops: seq<Hop>, out: Outcome)
    decreases |hops|
  {
    if hops == [] then path == [] && w.isDir(d) && out == Here(d, want)
    else if hops[0].Dead? then |hops| == 1 && Ends(w, d, path, nlink, want, hops[0].name, hops[0].why, out)
    else
      var h, c := hops[0], NameOf(hops[0]);
      && w.isDir(d) && Splits(path, c)
      && var left := path[|c|..];
         if h.Through? then
           && c != ".." && Looks(w, d, c, h.raw) && Followed(w, h.raw, left, want) && nlink < MAXSYMLINKS
           && Reads(w, h.raw, h.text) && |Spelled(h.text)| + |left| < MAXPATHLEN
           && var next := Spelled(h.text) + left;
              Leads(w, if next[0] == '/' then TopDir(w) else d, Unslashed(next), nlink + 1, want, hops[1..], out)
         else
           var parent, v := ParentOf(d, h), TargetOf(w, d, h);
           && Goes(w, d, left, want, h, parent, v)
           && (if left == [] then |hops| == 1 && out == Given(w, parent, v, c, want)
               else Leads(w, v, Unslashed(left), nlink, want, hops[1..], out))
  }

  // ----- The loop finds what the path leads to -----

  lemma {:induction false} SkipIsUnslashed(s: string)
    ensures SkipSlash(s) == Unslashed(s)
  {
    if s != [] && s[0] == '/' {
      SkipIsUnslashed(s[1..]);
    }
  }

  lemma SplitStrips(path: string, c: string)
    requires Splits(path, c)
    ensures Strip(path) == Some((c, path[|c|..])) && CString(c) == c && c != []
  {
    assert path == c + path[|c|..];
    StripFront(c, path[|c|..]);
    NoNulls(c);
  }

  lemma {:induction false} NoEntryFor(entries: seq<Entry>, c: string)
    requires forall i :: 0 <= i < |entries| ==> entries[i].name != c
    ensures EntryFor(entries, c) == None
  {
    if entries != [] {
      NoEntryFor(entries[1..], c);
    }
  }

  lemma {:induction false} FirstEntryFor(entries: seq<Entry>, c: string, k: nat)
    requires k < |entries| && entries[k].name == c && forall i :: 0 <= i < k ==> entries[i].name != c
    ensures EntryFor(entries, c) == Some(entries[k].vfs)
  {
    if k > 0 {
      FirstEntryFor(entries[1..], c, k - 1);
    }
  }

  lemma LooksIsPlain(w: World, d: nat, c: string, raw: nat)
    requires Looks(w, d, c, raw)
    ensures PlaceIn(w, d, c) == Plain(d, raw)
  {
    NoEntryFor(w.entries(d), c);
  }

  lemma FirstEntryIs(w: World, d: nat, c: string, k: nat)
    requires FirstEntry(w, d, c, k)
    ensures PlaceIn(w, d, c)
      == var r := w.vfsRoot(w.entries(d)[k].vfs); if r.Err? then Broken(r.error) else Settled(d, r.value)
  {
    FirstEntryFor(w.entries(d), c, k);
  }

  lemma {:induction false} StackedIsUppermost(w: World, tops: seq<nat>)
    requires Acyclic(w) && Stacked(w, tops)
    ensures Uppermost(w, tops[0]) == Uppermost(w, tops[|tops| - 1])
    decreases |tops|
  {
    if |tops| > 1 {
      assert Stacked(w, tops[1..]) by {
        forall i | 0 <= i < |tops[1..]| - 1
          ensures w.mounted(tops[1..][i]).Some? && w.vfsRoot(w.mounted(tops[1..][i]).value) == Ok(tops[1..][i + 1])
        {
          assert w.mounted(tops[i + 1]).Some?;
        }
      }
      StackedIsUppermost(w, tops[1..]);
      assert w.mounted(tops[0]).Some? && w.vfsRoot(w.mounted(tops[0]).value) == Ok(tops[1]);
    }
  }

  lemma TowerIsUppermost(w: World, raw: nat, tops: seq<nat>)
    requires Acyclic(w) && Tower(w, raw, tops)
    ensures Uppermost(w, raw) == Ok(tops[|tops| - 1])
  {
    StackedIsUppermost(w, tops);
  }

  lemma {:induction false} DescentIsClimb(w: World, d: nat, below: seq<nat>)
    requires Acyclic(w) && Descent(w, d, below)
    ensures var b := below[|below| - 1];
      Climb(w, d) == if |below| > 1 && w.mounted(b).None? then (b, true) else Climb(w, b)
    decreases |below|
  {
    if |below| > 1 {
      var rest := below[1..];
      assert !IsTop(w, below[0]) && w.isRoot(below[0]) && below[1] == w.covered(below[0]);
      if |below| > 2 {
        assert w.mounted(below[1]).Some?;
        DescentTail(w, d, below);
        DescentIsClimb(w, below[1], rest);
      }
    }
  }

  lemma DescentTail(w: World, d: nat, below: seq<nat>)
    requires Descent(w, d, below) && |below| > 1
    ensures Descent(w, below[1], below[1..])
  {
    var rest := below[1..];
    forall i | 0 <= i < |rest| - 1
      ensures !IsTop(w, rest[i]) && w.isRoot(rest[i]) && rest[i + 1] == w.covered(rest[i])
    {
      assert rest[i] == below[i + 1];
    }
    forall i | 0 < i < |rest| - 1
      ensures w.mounted(rest[i]).Some?
    {
      assert rest[i] == below[i + 1];
    }
  }

  /** A hop is one turn of the loop. */
  lemma HopTurns(w: World, d: nat, path: string, nlink: nat, want: Want, h: Hop, parent: nat, v: nat)
    requires Acyclic(w) && w.isDir(d) && Splits(path, NameOf(h)) && Goes(w, d, path[|NameOf(h)|..], want, h, parent, v)
    ensures TurnOf(w, d, path, nlink, want) == After(w, parent, v, NameOf(h), path[|NameOf(h)|..], nlink, want)
  {
    hide Acyclic, Strip, CString, PlaceIn, Uppermost, Climb, Looks, Tower, Descent, FirstEntry, Splits, IsTop;
    SplitStrips(path, NameOf(h));
    match h
    case Named(c, raw, tops) =>
      LooksIsPlain(w, d, c, raw);
      TowerIsUppermost(w, raw, tops);
    case Virtual(c, k) =>
      FirstEntryIs(w, d, c, k);
    case Up(below, raw, tops) =>
      DescentIsClimb(w, d, below);
      NotClimbed(w, parent);
      LooksIsPlain(w, parent, "..", raw);
      TowerIsUppermost(w, raw, tops);
    case Stopped(below) =>
      DescentIsClimb(w, d, below);
      RootClimbed(w, v);
    case _ =>
  }

  lemma NotClimbed(w: World, v: nat)
    requires Acyclic(w) && !IsTop(w, v) && !w.isRoot(v)
    ensures Climb(w, v) == (v, false)
  {
  }

  lemma RootClimbed(w: World, v: nat)
    requires Acyclic(w)
    ensures IsTop(w, v) ==> Climb(w, v) == (v, true)
  {
  }

  lemma PlainText(w: World, raw: nat, text: string)
    requires PlainLink(w, raw, text)
    ensures LinkText(w, raw) == Ok(text)
  {
    NoEscape(text);
  }

  lemma {:induction false} NoEscape(text: string)
    requires forall i :: 0 <= i < |text| ==> text[i] != ML_ESCCHAR
    ensures forall i :: 0 <= i < |CString(text)| ==> CString(text)[i] != ML_ESCCHAR
    ensures !HasMeta(CString(text))
  {
    if text != [] && text[0] != '\0' {
      NoEscape(text[1..]);
    }
  }

  lemma LinkCombines(w: World, raw: nat, text: string, left: string)
    requires Reads(w, raw, text)
    ensures Combined(w, raw, left)
      == if |Spelled(text)| + |left| >= MAXPATHLEN then Err(ENAMETOOLONG) else Ok(Spelled(text) + left)
  {
    hide LinkText, PlainLink, Metalinked;
    if PlainLink(w, raw, text) {
      PlainText(w, raw, text);
    } else {
      var cs, ms, absolute :| Metalinked(w, raw, cs, ms, absolute, text);
      MetaText(w, raw, cs, ms, absolute, text);
    }
  }

  // ----- Metalinks -----

  lemma {:induction false} ListedIs(table: seq<Metalink>, token: string, m: string, k: nat)
    requires k < |table| && table[k].token == token && (forall j :: 0 <= j < k ==> table[j].token != token)
    requires if table[k].variable != "" then m == table[k].variable else table[k].default == Some(m)
    ensures Substitute(table, token) == Ok(m)
  {
    if k > 0 {
      ListedIs(table[1..], token, m, k - 1);
    }
  }

  lemma ReplacedIs(w: World, c: string, m: string)
    requires Replaced(w, c, m)
    ensures ExpandOne(w, c) == Ok(m) && CString(m) == m
  {
    hide CString, Substitute;
    NoNulls(c);
    NoNulls(m);
    if c[0] == ML_ESCCHAR {
      var k :| 0 <= k < |w.metalinks| && w.metalinks[k].token == c[1..]
        && (forall j :: 0 <= j < k ==> w.metalinks[j].token != c[1..])
        && (if w.metalinks[k].variable != "" then m == w.metalinks[k].variable else w.metalinks[k].default == Some(m));
      ListedIs(w.metalinks, c[1..], m, k);
    }
  }

  /** From one component on. */
  lemma {:induction false} ExpandFrom(w: World, cs: seq<string>, ms: seq<string>, slash: string, meta: string)
    requires cs != [] && |cs| == |ms| && (forall i :: 0 <= i < |cs| ==> Replaced(w, cs[i], ms[i]))
    requires (slash == "" || slash == "/") && |meta| + |slash| + |Joined(ms)| < MAXPATHLEN
    ensures Expand(w, slash + Joined(cs), meta) == Ok(meta + (slash + Joined(ms)))
    decreases |cs|
  {
    hide Strip, CString, ExpandOne, SkipSlash, Joined, Replaced, Expand, Name;
    assert Replaced(w, cs[0], ms[0]);
    var path, left := slash + Joined(cs), if |cs| == 1 then "" else "/" + Joined(cs[1..]);
    FirstPart(w, cs, ms);
    FirstSlash(cs, slash);
    ReplacedIs(w, cs[0], ms[0]);
    NoNulls("/");
    var meta1 := meta + slash + ms[0];
    JoinedMost(ms);
    assert slash == "" ==> path == Joined(cs);
    ExpandStep(w, path, meta, slash, cs[0], left, ms[0]);
    if |cs| > 1 {
      ExpandFrom(w, cs[1..], ms[1..], "/", meta1);
      Together(meta + slash, ms[0], "/" + Joined(ms[1..]));
      Together(meta, slash, Joined(ms));
    } else {
      ExpandNone(w, meta1);
      Together(meta, slash, ms[0]);
    }
  }

  lemma ExpandStep(w: World, path: string, meta: string, slash: string, c: string, left: string, m: string)
    requires path != [] && (path[0] == '/' <==> slash == "/") && (slash == "" || slash == "/")
    requires Strip(if slash == "/" then SkipSlash(path) else path) == Some((c, left))
    requires ExpandOne(w, c) == Ok(m) && CString(m) == m && CString("/") == "/"
    requires |meta| + |slash| + |m| < MAXPATHLEN
    ensures Expand(w, path, meta) == Expand(w, left, meta + slash + m)
  {
    hide Strip, CString, ExpandOne, SkipSlash;
    assert meta + "" == meta;
  }

  lemma {:induction false} JoinedMost(ms: seq<string>)
    requires ms != []
    ensures |ms| == 1 ==> Joined(ms) == ms[0]
    ensures |ms| > 1 ==> Joined(ms) == ms[0] + ("/" + Joined(ms[1..]))
  {
    if |ms| > 1 {
      Together(ms[0], "/", Joined(ms[1..]));
    }
  }

  lemma Together(a: string, b: string, c: string)
    ensures a + b + c == a + (b + c)
  {
  }

  lemma ExpandNone(w: World, meta: string)
    ensures Expand(w, "", meta) == Ok(meta)
  {
  }

  lemma FirstPart(w: World, cs: seq<string>, ms: seq<string>)
    requires cs != [] && |cs| == |ms| && (forall i :: 0 <= i < |cs| ==> Replaced(w, cs[i], ms[i]))
    ensures forall i :: 0 <= i < |cs| ==> Name(cs[i])
    ensures Strip(Joined(cs)) == Some((cs[0], if |cs| == 1 then "" else "/" + Joined(cs[1..])))
  {
    hide Strip, Joined;
    forall i | 0 <= i < |cs|
      ensures Name(cs[i])
    {
      assert Replaced(w, cs[i], ms[i]);
    }
    JoinedMost(cs);
    StripFront(cs[0], if |cs| == 1 then "" else "/" + Joined(cs[1..]));
    assert cs[0] + "" == cs[0];
  }

  lemma FirstSlash(cs: seq<string>, slash: string)
    requires cs != [] && Name(cs[0]) && (slash == "" || slash == "/")
    ensures var path := slash + Joined(cs);
      path != [] && (path[0] == '/' <==> slash == "/") && SkipSlash(path) == Joined(cs)
  {
    var s := Joined(cs);
    assert s[0] == cs[0][0];
    assert ("/" + s)[1..] == s && "" + s == s;
  }

  /** An escaped component is noticed. */
  lemma {:induction false} MetaSeen(cs: seq<string>, i: nat, slash: string)
    requires (forall j :: 0 <= j < |cs| ==> Name(cs[j])) && i < |cs| && cs[i] != [] && cs[i][0] == ML_ESCCHAR
    requires slash == "" || slash == "/"
    ensures HasMeta(slash + Joined(cs))
    decreases |cs|
  {
    var s := slash + Joined(cs);
    JoinedMost(cs);
    if i == 0 {
      assert s[|slash|] == ML_ESCCHAR;
      assert Escaped(s, |slash|);
    } else {
      MetaSeen(cs[1..], i - 1, "/");
      var tail := "/" + Joined(cs[1..]);
      var k: nat :| k < |tail| && Escaped(tail, k);
      var at := |slash| + |cs[0]| + k;
      assert s == slash + cs[0] + tail;
      assert s[at] == tail[k] && (k > 0 ==> s[at - 1] == tail[k - 1]);
      assert Escaped(s, at);
    }
  }

  lemma {:induction false} JoinedNoNull(cs: seq<string>)
    requires forall i :: 0 <= i < |cs| ==> Name(cs[i])
    ensures forall i :: 0 <= i < |Joined(cs)| ==> Joined(cs)[i] != '\0'
  {
    if |cs| > 1 {
      JoinedNoNull(cs[1..]);
    }
  }

  lemma MetaText(w: World, raw: nat, cs: seq<string>, ms: seq<string>, absolute: bool, text: string)
    requires Metalinked(w, raw, cs, ms, absolute, text)
    ensures LinkText(w, raw) == Ok(text)
  {
    hide Expand, HasMeta, CString, Joined, Replaced;
    var slash := if absolute then "/" else "";
    FirstPart(w, cs, ms);
    var i :| 0 <= i < |cs| && cs[i] != [] && cs[i][0] == ML_ESCCHAR;
    MetaSeen(cs, i, slash);
    JoinedNoNull(cs);
    NoNulls(slash + Joined(cs));
    ExpandFrom(w, cs, ms, slash, "");
    assert "" + (slash + Joined(ms)) == slash + Joined(ms);
  }

  // ----- Turns -----

  lemma UnreadableCombines(w: World, raw: nat, left: string)
    requires w.readlink(raw).Err?
    ensures Combined(w, raw, left) == Err(w.readlink(raw).error)
  {
  }

  /** A link is one turn too. */
  lemma LinkTurns(w: World, d: nat, path: string, nlink: nat, want: Want, c: string, raw: nat)
    requires Acyclic(w) && w.isDir(d) && Splits(path, c) && c != ".." && Looks(w, d, c, raw)
    requires Followed(w, raw, path[|c|..], want)
    ensures var next := Combined(w, raw, path[|c|..]);
      TurnOf(w, d, path, nlink, want)
      == if nlink >= MAXSYMLINKS then Stop(Failed(ELOOP))
         else if next.Err? then Stop(Failed(next.error)) else Begin(w, d, next.value, nlink + 1)
  {
    hide Acyclic, Strip, CString, PlaceIn, Uppermost, Looks, Splits, Combined, Begin;
    SplitStrips(path, c);
    LooksIsPlain(w, d, c, raw);
  }

  lemma BeginsAt(w: World, d: nat, path: string, nlink: nat)
    requires path != []
    ensures Begin(w, d, path, nlink) == Go(if path[0] == '/' then TopDir(w) else d, Unslashed(path), nlink)
  {
    SkipIsUnslashed(path);
    if path[0] != '/' {
      assert path[0..] == path;
    }
  }

  lemma LongName(path: string)
    requires |path| > MAXNAMLEN && forall i :: 0 <= i <= MAXNAMLEN ==> path[i] != '/'
    ensures Strip(path).None?
  {
    LongEnd(path, 0);
  }

  lemma {:induction false} LongEnd(path: string, i: nat)
    requires i <= MAXNAMLEN < |path| && forall j :: 0 <= j <= MAXNAMLEN ==> path[j] != '/'
    ensures ComponentEnd(path, i) > MAXNAMLEN
    decreases MAXNAMLEN - i
  {
    if i < MAXNAMLEN {
      LongEnd(path, i + 1);
    }
  }

  lemma FailTurns(w: World, d: nat, path: string, nlink: nat, want: Want, c: string, why: Why, out: Outcome)
    requires Acyclic(w) && nlink <= MAXSYMLINKS && Ends(w, d, path, nlink, want, c, why, out)
    ensures TurnOf(w, d, path, nlink, want) == Stop(out)
  {
    hide Acyclic, Strip, CString, PlaceIn, Uppermost, NameFails, Splits, Climb;
    if why.NameTooLong? {
      LongName(path);
    } else if !why.NotDirectory? {
      SplitStrips(path, c);
      NameFailTurns(w, d, path, c, nlink, want, why, out);
    }
  }

  lemma NameFailTurns(w: World, d: nat, path: string, c: string, nlink: nat, want: Want, why: Why, out: Outcome)
    requires Acyclic(w) && w.isDir(d) && c != ".." && Splits(path, c) && nlink <= MAXSYMLINKS
    requires NameFails(w, d, c, path[|c|..], nlink, want, why, out)
    ensures TurnOf(w, d, path, nlink, want) == Stop(out)
  {
    hide Acyclic, Strip, CString, PlaceIn, Uppermost, Looks, Splits, Combined, FirstEntry, NoEntry, Reads, Stacked;
    SplitStrips(path, c);
    SplitSize(path, c);
    match why
    case NoAccess(e) => NoAccessIs(w, d, c);
    case BadVirtual(k, e) => FirstEntryIs(w, d, c, k);
    case Absent(e) => AbsentIs(w, d, c);
    case BadMount(raw, tops, e) =>
      LooksIsPlain(w, d, c, raw);
      BadTower(w, tops);
    case TooManyLinks(raw) => LinkTurns(w, d, path, nlink, want, c, raw);
    case Unreadable(raw, e) =>
      LinkTurns(w, d, path, nlink, want, c, raw);
      UnreadableCombines(w, raw, path[|c|..]);
    case TextTooLong(raw, text) =>
      LinkTurns(w, d, path, nlink, want, c, raw);
      LinkCombines(w, raw, text, path[|c|..]);
    case _ =>
  }

  lemma NoAccessIs(w: World, d: nat, c: string)
    requires w.entries(d) != [] && w.access(d).Some?
    ensures PlaceIn(w, d, c) == Broken(w.access(d).value)
  {
  }

  lemma AbsentIs(w: World, d: nat, c: string)
    requires NoEntry(w, d, c) && w.lookup(d, c).Err?
    ensures PlaceIn(w, d, c) == Missing(d, w.lookup(d, c).error)
  {
    NoEntryFor(w.entries(d), c);
  }

  lemma BadTower(w: World, tops: seq<nat>)
    requires Acyclic(w) && Stacked(w, tops) && w.mounted(tops[|tops| - 1]).Some?
    requires w.vfsRoot(w.mounted(tops[|tops| - 1]).value).Err?
    ensures Uppermost(w, tops[0]) == w.vfsRoot(w.mounted(tops[|tops| - 1]).value)
  {
    StackedIsUppermost(w, tops);
  }

  /** The end of the path, or on to the next component. */
  lemma AfterIs(w: World, parent: nat, v: nat, c: string, left: string, nlink: nat, want: Want)
    ensures After(w, parent, v, c, left, nlink, want)
      == if left == [] then Stop(Given(w, parent, v, c, want)) else Go(v, Unslashed(left), nlink)
  {
    SkipIsUnslashed(left);
  }

  lemma HereTurns(w: World, d: nat, nlink: nat, want: Want)
    requires Acyclic(w) && w.isDir(d)
    ensures TurnOf(w, d, [], nlink, want) == Stop(Here(d, want))
  {
    assert Strip([]) == Some(([], []));
  }

  lemma TranslateTurns(w: World, d: nat, path: string, nlink: nat, want: Want)
    requires Acyclic(w) && nlink <= MAXSYMLINKS
    ensures var t := TurnOf(w, d, path, nlink, want);
      && (t.Stop? ==> Translate(w, d, path, nlink, want) == t.out)
      && (t.Go? ==>
           t.nlink <= MAXSYMLINKS && Translate(w, d, path, nlink, want) == Translate(w, t.vp, t.path, t.nlink, want))
  {
    hide TurnOf;
    TurnShrinks(w, d, path, nlink, want);
  }

  /** Wherever a path leads, the loop of lookuppn finds just that, errors included. */
  lemma {:induction false} FindsWhatLeads(w: World, d: nat, path: string, nlink: nat, want: Want,
                                          hops: seq<Hop>, out: Outcome)
    requires Acyclic(w) && nlink <= MAXSYMLINKS && Leads(w, d, path, nlink, want, hops, out)
    ensures Translate(w, d, path, nlink, want) == out
    decreases |hops|
  {
    hide Acyclic, TurnOf, Goes, Ends, Splits, Looks, Reads, Combined, After, Begin, Given, Here, Followed, Translate;
    TranslateTurns(w, d, path, nlink, want);
    if hops == [] {
      HereTurns(w, d, nlink, want);
    } else if hops[0].Dead? {
      FailTurns(w, d, path, nlink, want, hops[0].name, hops[0].why, out);
    } else {
      var h, c := hops[0], NameOf(hops[0]);
      SplitSize(path, c);
      var left := path[|c|..];
      if h.Through? {
        LinkTurns(w, d, path, nlink, want, c, h.raw);
        LinkCombines(w, h.raw, h.text, left);
        var next := Spelled(h.text) + left;
        BeginsAt(w, d, next, nlink + 1);
        FindsWhatLeads(w, if next[0] == '/' then TopDir(w) else d, Unslashed(next), nlink + 1, want, hops[1..], out);
      } else {
        var parent, v := ParentOf(d, h), TargetOf(w, d, h);
        HopTurns(w, d, path, nlink, want, h, parent, v);
        AfterIs(w, parent, v, c, left, nlink, want);
        if left != [] {
          FindsWhatLeads(w, v, Unslashed(left), nlink, want, hops[1..], out);
        }
      }
    }
  }

  lemma SplitSize(path: string, c: string)
    requires Splits(path, c)
    ensures |c| <= |path|
  {
  }

  /** lookuppn from the current directory, or from the root for a name that begins with a slash. */
  lemma LookupFinds(w: World, name: string, want: Want, hops: seq<Hop>, out: Outcome)
    requires Acyclic(w)
    requires Leads(w, if name != [] && name[0] == '/' then TopDir(w) else w.cdir, Unslashed(name), 0, want, hops, out)
    ensures Lookup.Lookup(w, name, want) == out
  {
    hide Translate, Leads;
    if name == [] {
      assert Unslashed(name) == [];
    } else {
      BeginsAt(w, w.cdir, name, 0);
    }
    FindsWhatLeads(w, if name != [] && name[0] == '/' then TopDir(w) else w.cdir, Unslashed(name), 0, want, hops, out);
  }

  // ----- Ordinary paths -----

  /** c in directory d is v, which is no link, and nothing is mounted in d or on v. */
  predicate Entered(w: World, d: nat, c: string, v: nat) {
    && Name(c) && c != ".." && w.isDir(d) && w.entries(d) == [] && w.lookup(d, c) == Ok(v)
    && !w.isLink(v) && w.mounted(v).None?
  }

  /** vs[0], vs[1], ... is a chain of directories and what is in them. */
  predicate Chained(w: World, vs: seq<nat>, cs: seq<string>) {
    |vs| == |cs| + 1 && forall i :: 0 <= i < |cs| ==> Entered(w, vs[i], cs[i], vs[i + 1])
  }

  function NamedHops(vs: seq<nat>, cs: seq<string>): (hops: seq<Hop>)
    requires |vs| == |cs| + 1
    ensures |hops| == |cs|
  {
    seq(|cs|, i requires 0 <= i < |cs| => Named(cs[i], vs[i + 1], [vs[i + 1]]))
  }

  lemma {:induction false} ChainLeads(w: World, vs: seq<nat>, cs: seq<string>, nlink: nat, want: Want)
    requires cs != [] && Chained(w, vs, cs)
    ensures var n := |cs|;
      Leads(w, vs[0], Joined(cs), nlink, want, NamedHops(vs, cs), Given(w, vs[n - 1], vs[n], cs[n - 1], want))
    decreases |cs|
  {
    hide Given, Goes, Name, Leads, Joined;
    var hops, path := NamedHops(vs, cs), Joined(cs);
    forall i | 0 <= i < |cs|
      ensures Name(cs[i])
    {
      assert Entered(w, vs[i], cs[i], vs[i + 1]);
    }
    assert Entered(w, vs[0], cs[0], vs[1]);
    FrontOf(cs);
    var left := path[|cs[0]|..];
    NamedGoes(w, vs[0], cs[0], vs[1], left, want);
    if |cs| > 1 {
      ChainTail(w, vs, cs);
      ChainLeads(w, vs[1..], cs[1..], nlink, want);
      assert NamedHops(vs[1..], cs[1..]) == hops[1..];
    }
    var n := |cs|;
    LeadsOn(w, vs[0], path, nlink, want, hops, Given(w, vs[n - 1], vs[n], cs[n - 1], want));
  }

  lemma LeadsOn(w: World, d: nat, path: string, nlink: nat, want: Want, hops: seq<Hop>, out: Outcome)
    requires hops != [] && hops[0].Named? && w.isDir(d) && Splits(path, hops[0].name)
    requires var left, v := path[|hops[0].name|..], TargetOf(w, d, hops[0]);
      && Goes(w, d, left, want, hops[0], d, v)
      && (left == [] ==> |hops| == 1 && out == Given(w, d, v, hops[0].name, want))
      && (left != [] ==> Leads(w, v, Unslashed(left), nlink, want, hops[1..], out))
    ensures Leads(w, d, path, nlink, want, hops, out)
  {
    hide Goes, Splits, Unslashed, Given;
  }

  lemma NamedGoes(w: World, d: nat, c: string, v: nat, left: string, want: Want)
    requires c != ".." && w.entries(d) == [] && w.lookup(d, c) == Ok(v) && !w.isLink(v) && w.mounted(v).None?
    ensures Goes(w, d, left, want, Named(c, v, [v]), d, v)
  {
  }

  lemma ChainTail(w: World, vs: seq<nat>, cs: seq<string>)
    requires |cs| > 1 && Chained(w, vs, cs)
    ensures Chained(w, vs[1..], cs[1..])
  {
    hide Entered;
    forall i | 0 <= i < |cs[1..]|
      ensures Entered(w, vs[1..][i], cs[1..][i], vs[1..][i + 1])
    {
      assert Entered(w, vs[i + 1], cs[i + 1], vs[i + 2]);
    }
  }

  lemma FrontOf(cs: seq<string>)
    requires cs != [] && forall i :: 0 <= i < |cs| ==> Name(cs[i])
    ensures Splits(Joined(cs), cs[0])
    ensures |cs| == 1 ==> Joined(cs)[|cs[0]|..] == []
    ensures |cs| > 1 ==>
      Joined(cs)[|cs[0]|..] == "/" + Joined(cs[1..]) && Unslashed("/" + Joined(cs[1..])) == Joined(cs[1..])
  {
    if |cs| > 1 {
      var tail := Joined(cs[1..]);
      assert Joined(cs) == cs[0] + ("/" + tail);
      assert Name(cs[1]) && cs[1][0] != '/';
      assert tail[0] == cs[1][0];
      assert ("/" + tail)[1..] == tail;
    }
  }

  /**
   * A path of ordinary names, relative or absolute, finds the vnode that the
   * chain of lookups ends at, as an entry of the one before it.
   */
  lemma PathFinds(w: World, vs: seq<nat>, cs: seq<string>, absolute: bool, want: Want)
    requires Acyclic(w) && cs != [] && Chained(w, vs, cs) && vs[0] == if absolute then TopDir(w) else w.cdir
    ensures var n := |cs|;
      Lookup.Lookup(w, if absolute then "/" + Joined(cs) else Joined(cs), want)
      == if want.dir && w.same(vs[n - 1], vs[n]) then Failed(EEXIST)
         else Found(if want.dir then Some(vs[n - 1]) else None, if want.comp then Some(vs[n]) else None, cs[n - 1])
  {
    hide Leads, Acyclic, Joined, Unslashed, NamedHops, Lookup.Lookup, Name, TopDir;
    assert Entered(w, vs[0], cs[0], vs[1]);
    var n, name := |cs|, if absolute then "/" + Joined(cs) else Joined(cs);
    ChainLeads(w, vs, cs, 0, want);
    StartOf(cs);
    LookupFinds(w, name, want, NamedHops(vs, cs), Given(w, vs[n - 1], vs[n], cs[n - 1], want));
  }

  lemma StartOf(cs: seq<string>)
    requires cs != [] && Name(cs[0])
    ensures var s := Joined(cs); s != [] && s[0] != '/' && Unslashed(s) == s && Unslashed("/" + s) == s
  {
    var s := Joined(cs);
    assert s[0] == cs[0][0];
    assert ("/" + s)[1..] == s;
    assert s[0..] == s;
  }
}
