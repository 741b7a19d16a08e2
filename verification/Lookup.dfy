/**
 * Pathname translation: lookuppn with symbolic links, metalinks, mounted and
 * virtual mounted file systems. The loop of gotos is proved to compute a
 * recursive reference, to end, and on every exit to hold exactly the vnodes
 * it returns and to have freed every pathname buffer it took exactly once.
 */
module Lookup {

  const MAXSYMLINKS := 20
  const MAXPATHLEN := 1024
  const MAXNAMLEN := 255
  const ML_ESCCHAR := '$'

  datatype Option<T> = None | Some(value: T)

  datatype Error = ENOENT | ENOTDIR | EACCES | EEXIST | ELOOP | ENAMETOOLONG | EOTHER(code: int)

  datatype Result<T> = Ok(value: T) | Err(error: Error)

  /** A virtual mount entry of a directory. */
  datatype Entry = Entry(name: string, vfs: nat)

  datatype Metalink = Metalink(token: string, variable: string, default: Option<string>)

  /**
   * The file systems as lookuppn sees them: vnodes and file systems are
   * numbers, and the operations answer the same throughout one lookup.
   * `depth` orders mounts; it is not consulted by the code.
   */
  datatype World = World(
    isDir: nat -> bool, isLink: nat -> bool, isRoot: nat -> bool, covered: nat -> nat,
    mounted: nat -> Option<nat>, entries: nat -> seq<Entry>,
    vfsRoot: nat -> Result<nat>, access: nat -> Option<Error>,
    lookup: (nat, string) -> Result<nat>, readlink: nat -> Result<string>,
    same: (nat, nat) -> bool, metalinks: seq<Metalink>,
    cdir: nat, rdir: Option<nat>, rootdir: nat,
    depth: nat -> nat, limit: nat)

  /** Mounts are not circular: the root of a mounted file system is deeper than what it covers. */
  ghost predicate Acyclic(w: World) {
    && (forall v: nat {:trigger w.covered(v)} :: w.isRoot(v) ==> w.depth(w.covered(v)) < w.depth(v))
    && (forall v: nat {:trigger w.mounted(v)} :: w.mounted(v).Some? && w.vfsRoot(w.mounted(v).value).Ok? ==>
         w.depth(v) < w.depth(w.vfsRoot(w.mounted(v).value).value) <= w.limit)
  }

  // ----- Pathnames -----

  /** A byte string up to its first null. */
  function CString(s: string): (r: string)
    ensures |r| <= |s|
  {
    if s == [] || s[0] == '\0' then [] else [s[0]] + CString(s[1..])
  }

  function SkipSlash(s: string): (r: string)
    ensures |r| <= |s|
    ensures s != [] && s[0] == '/' ==> |r| < |s|
  {
    if s != [] && s[0] == '/' then SkipSlash(s[1..]) else s
  }

  /** Where the first component ends. */
  function ComponentEnd(s: string, i: nat): (j: nat)
    requires i <= |s|
    ensures i <= j <= |s|
    decreases |s| - i
  {
    if i < |s| && s[i] != '/' then ComponentEnd(s, i + 1) else i
  }

  /** The first component and the rest, or nothing if it is too long. */
  function Strip(s: string): Option<(string, string)> {
    var n := ComponentEnd(s, 0);
    if n > MAXNAMLEN then None else Some((s[..n], s[n..]))
  }

  method PnSkipSlash(s: string) returns (r: string)
    ensures r == SkipSlash(s)
  {
    r := s;
    while |r| > 0 && r[0] == '/'
      invariant SkipSlash(r) == SkipSlash(s)
    {
      r := r[1..];
    }
  }

  method PnGetComponent(s: string) returns (r: Option<(string, string)>)
    ensures r == Strip(s)
  {
    var component, n := [], MAXNAMLEN;
    while |component| < |s| && s[|component|] != '/'
      invariant |component| <= |s| && component == s[..|component|] && n == MAXNAMLEN - |component| && n >= 0
      invariant ComponentEnd(s, |component|) == ComponentEnd(s, 0)
      decreases |s| - |component|
    {
      n := n - 1;
      if n < 0 {
        LongerStill(s, |component| + 1);
        return None;
      }
      component := component + [s[|component|]];
    }
    r := Some((component, s[|component|..]));
  }

  lemma LongerStill(s: string, i: nat)
    requires i <= |s|
    ensures ComponentEnd(s, i) >= i
  {
  }

  function Append(path: string, text: string): Result<string> {
    if |path| + |CString(text)| >= MAXPATHLEN then Err(ENAMETOOLONG) else Ok(path + CString(text))
  }

  // ----- Metalinks -----

  /** Some component of the link begins with the escape character. */
  predicate HasMeta(s: string) {
    exists i: nat :: i < |s| && Escaped(s, i)
  }

  predicate Escaped(s: string, i: nat)
    requires i < |s|
  {
    s[i] == ML_ESCCHAR && (i == 0 || s[i - 1] == '/')
  }

  function Substitute(table: seq<Metalink>, token: string): Result<string> {
    if table == [] then Err(ENOENT)
    else if token == table[0].token then
      if table[0].variable != "" then Ok(table[0].variable)
      else if table[0].default.Some? then Ok(table[0].default.value)
      else Err(ENOENT)
    else Substitute(table[1..], token)
  }

  /** One component of a metalink, replaced if it begins with the escape character. */
  function ExpandOne(w: World, component: string): Result<string> {
    if component != [] && component[0] == ML_ESCCHAR then Substitute(w.metalinks, CString(component)[1..])
    else Ok(component)
  }

  /** The components of the link in order, replaced, with single slashes between them, after `meta`. */
  function Expand(w: World, path: string, meta: string): Result<string>
    decreases |path|
  {
    if path == [] then Ok(meta)
    else
      var slashed := if path[0] == '/' then Append(meta, "/") else Ok(meta);
      if slashed.Err? then slashed
      else
        var rest := if path[0] == '/' then SkipSlash(path) else path;
        var c := Strip(rest);
        if c.None? then Err(ENAMETOOLONG)
        else
          var text := ExpandOne(w, c.value.0);
          if text.Err? then text
          else
            var meta1 := Append(slashed.value, text.value);
            if meta1.Err? then meta1
            else
              StripShrinks(rest);
              Expand(w, c.value.1, meta1.value)
  }

  /** A component that is not empty is taken off. */
  lemma StripShrinks(s: string)
    ensures Strip(s).Some? ==> |Strip(s).value.1| <= |s| && Strip(s).value.0 + Strip(s).value.1 == s
    ensures Strip(s).Some? && s != [] && s[0] != '/' ==> |Strip(s).value.1| < |s|
  {
    if s != [] && s[0] != '/' {
      LongerStill(s, 1);
    }
  }

  /** readlink into a buffer of MAXPATHLEN bytes. */
  function ReadText(w: World, link: nat): (r: Result<string>)
    ensures r.Ok? ==> |r.value| <= MAXPATHLEN
  {
    var text := w.readlink(link);
    if text.Ok? && |text.value| > MAXPATHLEN then Ok(text.value[..MAXPATHLEN]) else text
  }

  /** getsymlink: the text that a link stands for. */
  function LinkText(w: World, link: nat): Result<string> {
    var text := ReadText(w, link);
    if text.Err? then text
    else if HasMeta(CString(text.value)) then Expand(w, text.value, "")
    else text
  }

  // ----- The reference -----

  /** What the caller asked for. */
  datatype Want = Want(follow: bool, dir: bool, comp: bool)

  /** The error, or the vnodes returned and the name left in the pathname. */
  datatype Outcome = Failed(error: Error) | Found(dir: Option<nat>, comp: Option<nat>, name: string)

  predicate AtRoot(w: World, v: nat) {
    (w.rdir.Some? && w.same(v, w.rdir.value)) || w.same(v, w.rootdir)
  }

  function RootOf(w: World): nat {
    if w.rdir.Some? then w.rdir.value else w.rootdir
  }

  /** "..": up through the roots of mounted file systems; true if it stops there, at the root or at a virtual mount. */
  ghost function Climb(w: World, v: nat): (nat, bool)
    requires Acyclic(w)
    decreases w.depth(v)
  {
    if AtRoot(w, v) then (v, true)
    else if w.isRoot(v) then
      if w.mounted(w.covered(v)).None? then (w.covered(v), true) else Climb(w, w.covered(v))
    else (v, false)
  }

  /** The file system mounted virtually in a directory under a name. */
  function EntryFor(entries: seq<Entry>, name: string): Option<nat> {
    if entries == [] then None
    else if entries[0].name == name then Some(entries[0].vfs)
    else EntryFor(entries[1..], name)
  }

  /** Where a component leads: a vnode to use as it is, one that may be a link or mounted on, or nothing. */
  datatype Place =
    | Settled(vp: nat, cvp: nat)
    | Plain(vp: nat, cvp: nat)
    | Missing(vp: nat, error: Error)
    | Broken(error: Error)

  function PlaceIn(w: World, v: nat, name: string): Place {
    var e := EntryFor(w.entries(v), name);
    if w.entries(v) != [] && w.access(v).Some? then Broken(w.access(v).value)
    else if e.Some? then
      var r := w.vfsRoot(e.value);
      if r.Err? then Broken(r.error) else Settled(v, r.value)
    else
      var r := w.lookup(v, name);
      if r.Err? then Missing(v, r.error) else Plain(v, r.value)
  }

  ghost function PlaceOf(w: World, v: nat, name: string): Place
    requires Acyclic(w)
  {
    if name == ".." then
      var (v1, stop) := Climb(w, v);
      if stop then Settled(v1, v1) else PlaceIn(w, v1, name)
    else PlaceIn(w, v, name)
  }

  /** Through everything mounted on a vnode. */
  ghost function Uppermost(w: World, v: nat): Result<nat>
    requires Acyclic(w)
    decreases w.limit - w.depth(v)
  {
    var m := w.mounted(v);
    if m.None? then Ok(v)
    else
      var r := w.vfsRoot(m.value);
      if r.Err? then r else Uppermost(w, r.value)
  }

  /** The end of the path: the parent, if wanted, must be a real one. */
  function Finish(w: World, vp: nat, cvp: nat, name: string, want: Want): Outcome {
    if want.dir && w.same(vp, cvp) then Failed(EEXIST)
    else Found(if want.dir then Some(vp) else None, if want.comp then Some(cvp) else None, name)
  }

  /** The vnodes that a result hands to the caller, each with a hold. */
  function Returned(out: Outcome): seq<nat> {
    match out
    case Failed(_) => []
    case Found(dir, comp, _) => (if dir.Some? then [dir.value] else []) + (if comp.Some? then [comp.value] else [])
  }

  /** Further holds on top of the caller's. */
  ghost function With(rest: multiset<nat>, held: seq<nat>): multiset<nat> {
    rest + multiset(held)
  }

  /** The vnodes held in the middle of a turn. */
  function PlaceHolds(vp: nat, place: Place): seq<nat> {
    if place.Settled? || place.Plain? then [vp, place.cvp] else [vp]
  }

  function TurnHolds(turn: Turn): seq<nat> {
    if turn.Stop? then Returned(turn.out) else [turn.vp]
  }

  /** The pathname after a link has been put in front of what is left, which must leave room for a null. */
  function Combined(w: World, link: nat, left: string): Result<string> {
    var text := LinkText(w, link);
    if text.Err? then text
    else
      var path := if text.value == [] then "." else text.value;
      if |left| + |path| >= MAXPATHLEN then Err(ENAMETOOLONG) else Ok(path + left)
  }

  /** Dealing with one component ends the lookup or leads to another directory with a path still to go. */
  datatype Turn = Stop(out: Outcome) | Go(vp: nat, path: string, nlink: nat)

  predicate Absolute(path: string) {
    path != [] && path[0] == '/'
  }

  /** A new name is interpreted from the root if it starts with a slash, otherwise from where we are. */
  function Begin(w: World, vp: nat, path: string, nlink: nat): Turn {
    if Absolute(path) then Go(RootOf(w), SkipSlash(path), nlink) else Go(vp, path, nlink)
  }

  /** On to the next component, or done if there is none. */
  function After(w: World, vp: nat, cvp: nat, name: string, left: string, nlink: nat, want: Want): Turn {
    if left == [] then Stop(Finish(w, vp, cvp, name, want)) else Go(cvp, SkipSlash(left), nlink)
  }

  ghost function Resolve(w: World, place: Place, name: string, left: string, nlink: nat, want: Want): Turn
    requires Acyclic(w)
  {
    match place
    case Broken(e) => Stop(Failed(e))
    case Missing(v, e) =>
      if left != [] || !want.dir || e == EACCES then Stop(Failed(e)) else Stop(Found(Some(v), None, name))
    case Settled(v, c) => After(w, v, c, name, left, nlink, want)
    case Plain(v, c) =>
      if w.isLink(c) && (want.follow || left != []) then
        if nlink + 1 > MAXSYMLINKS then Stop(Failed(ELOOP))
        else
          var path := Combined(w, c, left);
          if path.Err? then Stop(Failed(path.error)) else Begin(w, v, path.value, nlink + 1)
      else
        var up := Uppermost(w, c);
        if up.Err? then Stop(Failed(up.error)) else After(w, v, up.value, name, left, nlink, want)
  }

  ghost function TurnOf(w: World, vp: nat, path: string, nlink: nat, want: Want): Turn
    requires Acyclic(w)
  {
    if !w.isDir(vp) then Stop(Failed(ENOTDIR))
    else if Strip(path).None? then Stop(Failed(ENAMETOOLONG))
    else
      var name, left := CString(Strip(path).value.0), Strip(path).value.1;
      if name == [] then
        if want.dir then Stop(Failed(EEXIST)) else Stop(Found(None, if want.comp then Some(vp) else None, "."))
      else Resolve(w, PlaceOf(w, vp, name), name, left, nlink, want)
  }

  /** Every turn that goes on has followed a link, of which there are at most MAXSYMLINKS, or shortened the path. */
  lemma TurnShrinks(w: World, vp: nat, path: string, nlink: nat, want: Want)
    requires Acyclic(w) && nlink <= MAXSYMLINKS
    ensures var t := TurnOf(w, vp, path, nlink, want);
      t.Go? ==> nlink < t.nlink <= MAXSYMLINKS || (t.nlink == nlink && |t.path| < |path|)
  {
    hide Acyclic, Strip, CString, PlaceOf, Uppermost, Finish, Combined;
    if Strip(path).Some? && CString(Strip(path).value.0) != [] {
      ComponentShrinks(path);
    }
  }

  lemma ComponentShrinks(s: string)
    requires Strip(s).Some? && CString(Strip(s).value.0) != []
    ensures |Strip(s).value.1| < |s|
  {
    StripShrinks(s);
  }

  /** The whole translation from directory vp. */
  ghost function Translate(w: World, vp: nat, path: string, nlink: nat, want: Want): Outcome
    requires Acyclic(w) && nlink <= MAXSYMLINKS
    decreases MAXSYMLINKS - nlink, |path|
  {
    TurnShrinks(w, vp, path, nlink, want);
    match TurnOf(w, vp, path, nlink, want)
    case Stop(out) => out
    case Go(vp1, path1, nlink1) => Translate(w, vp1, path1, nlink1, want)
  }

  /** lookuppn as a function: from the current directory, or from the root if the name starts with a slash. */
  ghost function Lookup(w: World, name: string, want: Want): Outcome
    requires Acyclic(w)
  {
    var t := Begin(w, w.cdir, name, 0);
    Translate(w, t.vp, t.path, 0, want)
  }

  /** A component in front of a path. */
  lemma StripFront(name: string, rest: string)
    requires |name| <= MAXNAMLEN && (rest == [] || rest[0] == '/')
    requires forall i :: 0 <= i < |name| ==> name[i] != '/'
    ensures Strip(name + rest) == Some((name, rest))
  {
    EndOfFront(name, rest, 0);
    assert (name + rest)[..|name|] == name && (name + rest)[|name|..] == rest;
  }

  lemma {:induction false} EndOfFront(name: string, rest: string, i: nat)
    requires i <= |name| && (rest == [] || rest[0] == '/')
    requires forall j :: 0 <= j < |name| ==> name[j] != '/'
    ensures ComponentEnd(name + rest, i) == |name|
    decreases |name| - i
  {
    if i < |name| {
      EndOfFront(name, rest, i + 1);
    }
  }

  /** "..", "../..", and so on. */
  function DotDots(k: nat): string {
    if k == 0 then ".." else "../" + DotDots(k - 1)
  }

  /** However often ".." is repeated it does not lead out of the root directory. */
  lemma {:induction false} NoWayOut(w: World, v: nat, k: nat, nlink: nat, follow: bool)
    requires Acyclic(w) && AtRoot(w, v) && w.isDir(v) && nlink <= MAXSYMLINKS
    ensures Translate(w, v, DotDots(k), nlink, Want(follow, false, true)) == Found(None, Some(v), "..")
    decreases k
  {
    hide Acyclic, Strip;
    var rest := if k == 0 then "" else "/" + DotDots(k - 1);
    assert DotDots(k) == ".." + rest;
    StripFront("..", rest);
    assert CString("..") == "..";
    if k > 0 {
      var tail := DotDots(k - 1);
      assert tail[0] == '.';
      assert rest[1..] == tail;
      assert SkipSlash(rest) == tail;
      NoWayOut(w, v, k - 1, nlink, follow);
    }
  }

  /** A link that leads to itself is given up after MAXSYMLINKS turns. */
  lemma {:induction false} SelfLinkFails(w: World, v: nat, link: nat, name: string, nlink: nat, want: Want)
    requires Acyclic(w) && w.isDir(v) && nlink <= MAXSYMLINKS && want.follow
    requires 0 < |name| <= MAXNAMLEN && name != ".." && !HasMeta(name)
    requires forall i :: 0 <= i < |name| ==> name[i] != '/' && name[i] != '\0'
    requires w.entries(v) == [] && w.lookup(v, name) == Ok(link) && w.isLink(link) && w.readlink(link) == Ok(name)
    ensures Translate(w, v, name, nlink, want) == Failed(ELOOP)
    decreases MAXSYMLINKS - nlink
  {
    hide Acyclic, Strip, CString, HasMeta;
    StripFront(name, "");
    assert name + "" == name;
    NoNulls(name);
    if nlink < MAXSYMLINKS {
      SelfLinkFails(w, v, link, name, nlink + 1, want);
    }
  }

  lemma {:induction false} NoNulls(s: string)
    requires forall i :: 0 <= i < |s| ==> s[i] != '\0'
    ensures CString(s) == s
  {
    if s != [] {
      NoNulls(s[1..]);
    }
  }

  // ----- The loops of getsymlink -----

  /**
   * Make the text of a link a string by storing a null after it. `mem` is its
   * buffer of MAXPATHLEN bytes and the byte after that, which was `beyond`: a
   * text that fills the buffer puts the null there.
   */
  method StoreNull(text: string, beyond: char) returns (mem: string)
    requires |text| <= MAXPATHLEN
    ensures |mem| == MAXPATHLEN + 1 && mem[..|text|] == text && mem[|text|] == '\0' && CString(mem) == CString(text)
    ensures mem[MAXPATHLEN] == if |text| == MAXPATHLEN then '\0' else beyond
  {
    var a := new char[MAXPATHLEN + 1](
      i => if 0 <= i < |text| then text[i] else if i == MAXPATHLEN then beyond else ' ');
    a[|text|] := '\0';
    mem := a[..];
    NullEnds(mem, |text|);
  }

  lemma {:induction false} NullEnds(s: string, k: nat)
    requires k < |s| && s[k] == '\0'
    ensures CString(s) == CString(s[..k])
  {
    if k > 0 && s[0] != '\0' {
      NullEnds(s[1..], k - 1);
      assert s[..k][1..] == s[1..][..k - 1];
    }
  }

  /** A text that fills the buffer and is no metalink never becomes part of a path: every lookup through it fails. */
  lemma FullLinkIsTooLong(w: World, link: nat, left: string)
    requires ReadText(w, link).Ok? && |ReadText(w, link).value| == MAXPATHLEN
    requires !HasMeta(CString(ReadText(w, link).value))
    ensures Combined(w, link, left) == Err(ENAMETOOLONG)
  {
  }

  /** A link whose text fills the buffer can be followed if and only if it is a metalink with a short translation. */
  lemma FullLinkWorksIff(w: World, link: nat, left: string)
    requires ReadText(w, link).Ok? && |ReadText(w, link).value| == MAXPATHLEN
    ensures var text := ReadText(w, link).value;
      var r := Expand(w, text, "");
      Combined(w, link, left).Ok? <==>
        HasMeta(CString(text)) && r.Ok? && |left| + (if r.value == [] then 1 else |r.value|) < MAXPATHLEN
  {
    if !HasMeta(CString(ReadText(w, link).value)) {
      FullLinkIsTooLong(w, link, left);
    }
  }

  function Slashes(n: nat): (r: string)
    ensures |r| == n && forall i :: 0 <= i < n ==> r[i] == '/'
  {
    seq(n, _ => '/')
  }

  /** A metalink followed by as many slashes as fill the buffer. */
  function FullMetalink(token: string): (r: string)
    requires |token| < MAXPATHLEN
    ensures |r| == MAXPATHLEN
  {
    [ML_ESCCHAR] + token + Slashes(MAXPATHLEN - 1 - |token|)
  }

  /** Such links there are: the null is stored outside the buffer and the link is followed all the same. */
  lemma FullMetalinkWorks(w: World, link: nat, token: string, value: string, left: string)
    requires |token| < MAXNAMLEN && '/' !in token && '\0' !in token && w.readlink(link) == Ok(FullMetalink(token))
    requires Substitute(w.metalinks, token) == Ok(value) && '\0' !in value && |value| + 1 + |left| < MAXPATHLEN
    ensures Combined(w, link, left) == Ok(value + "/" + left)
  {
    hide HasMeta, Expand, CString, Substitute, Slashes;
    var text := FullMetalink(token);
    assert text[..MAXPATHLEN] == text;
    FullMetalinkHasMeta(token);
    FullMetalinkExpands(w, token, value);
    assert value + "/" != [];
  }

  lemma FullMetalinkHasMeta(token: string)
    requires |token| < MAXPATHLEN
    ensures HasMeta(CString(FullMetalink(token)))
  {
    hide Slashes;
    var s := CString(FullMetalink(token));
    assert s != [] && s[0] == ML_ESCCHAR;
    assert Escaped(s, 0);
  }

  lemma FullMetalinkExpands(w: World, token: string, value: string)
    requires |token| < MAXNAMLEN && '/' !in token && '\0' !in token
    requires Substitute(w.metalinks, token) == Ok(value) && '\0' !in value && |value| + 1 < MAXPATHLEN
    ensures Expand(w, FullMetalink(token), "") == Ok(value + "/")
  {
    hide ComponentEnd, CString, Substitute, SkipSlash, Slashes;
    var text, first := FullMetalink(token), [ML_ESCCHAR] + token;
    var slashes := Slashes(MAXPATHLEN - 1 - |token|);
    EndsAt(text, 0, |first|);
    assert text[..|first|] == first && text[|first|..] == slashes;
    NoNulls(first);
    NoNulls(value);
    assert first[1..] == token;
    assert "" + value == value;
    TrailingSlashes(w, slashes, value);
  }

  lemma TrailingSlashes(w: World, slashes: string, meta: string)
    requires slashes != [] && (forall i :: 0 <= i < |slashes| ==> slashes[i] == '/') && |meta| + 1 < MAXPATHLEN
    ensures Expand(w, slashes, meta) == Ok(meta + "/")
  {
    hide ComponentEnd, CString, Substitute, SkipSlash;
    AllSlashes(slashes);
    NoNulls("/");
    NoNulls("");
    EndsAt("", 0, 0);
    assert meta + "/" + "" == meta + "/";
  }

  lemma {:induction false} AllSlashes(s: string)
    requires forall i :: 0 <= i < |s| ==> s[i] == '/'
    ensures SkipSlash(s) == []
  {
    if s != [] {
      AllSlashes(s[1..]);
    }
  }

  lemma {:induction false} EndsAt(s: string, i: nat, k: nat)
    requires i <= k <= |s| && (forall j :: i <= j < k ==> s[j] != '/') && (k < |s| ==> s[k] == '/')
    ensures ComponentEnd(s, i) == k
    decreases k - i
  {
    if i < k {
      EndsAt(s, i + 1, k);
    }
  }

  method FindMeta(s: string) returns (found: bool)
    ensures found == HasMeta(s)
  {
    var i := 0;
    while i < |s|
      invariant 0 <= i <= |s|
      invariant forall j: nat :: j < i ==> !Escaped(s, j)
    {
      if Escaped(s, i) {
        return true;
      }
      i := i + 1;
    }
    found := false;
  }

  method FindToken(table: seq<Metalink>, token: string) returns (r: Result<string>)
    ensures r == Substitute(table, token)
  {
    var ml := 0;
    while ml < |table|
      invariant 0 <= ml <= |table| && Substitute(table[ml..], token) == Substitute(table, token)
    {
      assert table[ml..][1..] == table[ml + 1..];
      if token == table[ml].token {
        if table[ml].variable == "" {
          return if table[ml].default.Some? then Ok(table[ml].default.value) else Err(ENOENT);
        }
        return Ok(table[ml].variable);
      }
      ml := ml + 1;
    }
    r := Err(ENOENT);
  }

  method ExpandMeta(w: World, text: string) returns (r: Result<string>)
    ensures r == Expand(w, text, "")
  {
    hide Strip, Append, SkipSlash, Substitute, CString;
    var path, meta := text, "";
    while path != []
      invariant Expand(w, path, meta) == Expand(w, text, "")
      decreases |path|
    {
      ghost var path0, meta0 := path, meta;
      if path[0] == '/' {
        var slashed := Append(meta, "/");
        if slashed.Err? {
          return slashed;
        }
        meta := slashed.value;
        path := PnSkipSlash(path);
      }
      StripShrinks(path);
      var c := PnGetComponent(path);
      if c.None? {
        return Err(ENAMETOOLONG);
      }
      var piece := Ok(c.value.0);
      if c.value.0 != [] && c.value.0[0] == ML_ESCCHAR {
        EscapeStays(c.value.0);
        piece := FindToken(w.metalinks, CString(c.value.0)[1..]);
      }
      if piece.Err? {
        return piece;
      }
      var meta1 := Append(meta, piece.value);
      if meta1.Err? {
        return meta1;
      }
      path, meta := c.value.1, meta1.value;
    }
    r := Ok(meta);
  }

  lemma EscapeStays(s: string)
    requires s != [] && s[0] == ML_ESCCHAR
    ensures CString(s) != [] && CString(s)[0] == ML_ESCCHAR
  {
  }

  method FindEntry(entries: seq<Entry>, name: string) returns (r: Option<nat>)
    ensures r == EntryFor(entries, name)
  {
    var i := 0;
    while i < |entries|
      invariant 0 <= i <= |entries| && EntryFor(entries[i..], name) == EntryFor(entries, name)
    {
      assert entries[i..][1..] == entries[i + 1..];
      if entries[i].name == name {
        return Some(entries[i].vfs);
      }
      i := i + 1;
    }
    r := None;
  }

  // ----- Holds and buffers -----

  /** The vnode holds and pathname buffers that this lookup answers for. */
  class Refs {
    var holds: multiset<nat>
    var buffers: set<nat>
    var serial: nat

    ghost predicate Valid()
      reads this
    {
      forall b :: b in buffers ==> b < serial
    }

    /** VN_HOLD. */
    method Hold(v: nat, ghost rest: multiset<nat>, ghost held: seq<nat>, ghost after: seq<nat>)
      requires holds == With(rest, held) && after == held + [v]
      modifies this`holds
      ensures holds == With(rest, after)
    {
      assert multiset(held + [v]) == multiset(held) + multiset{v};
      holds := holds + multiset{v};
    }

    /** VN_RELE of a vnode that is held, the i-th of those held. */
    method Release(v: nat, ghost rest: multiset<nat>, ghost held: seq<nat>, ghost i: nat, ghost after: seq<nat>)
      requires holds == With(rest, held) && i < |held| && held[i] == v && after == held[..i] + held[i + 1..]
      modifies this`holds
      ensures holds == With(rest, after)
    {
      assert held == held[..i] + [v] + held[i + 1..];
      assert multiset(held) == multiset(held[..i]) + multiset{v} + multiset(held[i + 1..]);
      assert multiset(held[..i] + held[i + 1..]) == multiset(held[..i]) + multiset(held[i + 1..]);
      holds := holds - multiset{v};
    }

    method PnAlloc() returns (b: nat)
      requires Valid()
      modifies this`buffers, this`serial
      ensures Valid() && b !in old(buffers) && buffers == old(buffers) + {b}
    {
      b := serial;
      serial := serial + 1;
      buffers := buffers + {b};
    }

    method PnFree(b: nat)
      requires Valid() && b in buffers
      modifies this`buffers
      ensures Valid() && buffers == old(buffers) - {b}
    {
      buffers := buffers - {b};
    }

    /**
     * getsymlink: on success the caller owns one new buffer, on failure none.
     * `beyond` is the byte after that buffer and `after` what it is in the
     * end: the null stored after the text falls there if the text fills the
     * buffer.
     */
    method GetSymlink(w: World, link: nat, beyond: char) returns (r: Result<string>, b: nat, after: char)
      requires Valid()
      modifies this`buffers, this`serial
      ensures Valid() && r == LinkText(w, link) && b !in old(buffers)
      ensures buffers == if r.Ok? then old(buffers) + {b} else old(buffers)
      ensures var text := ReadText(w, link);
        after == if text.Ok? && |text.value| == MAXPATHLEN then '\0' else beyond
    {
      b := PnAlloc();
      r := ReadText(w, link);
      if r.Err? {
        PnFree(b);
        return r, b, beyond;
      }
      var mem := StoreNull(r.value, beyond);
      after := mem[MAXPATHLEN];
      var meta := FindMeta(CString(mem));
      if meta {
        var mb := PnAlloc();
        r := ExpandMeta(w, r.value);
        PnFree(mb);
      }
      if r.Err? {
        PnFree(b);
      }
    }

    /** The two special cases of "..". */
    method ClimbUp(w: World, start: nat, ghost rest: multiset<nat>) returns (vp: nat, stop: bool)
      requires Acyclic(w) && holds == With(rest, [start])
      modifies this`holds
      ensures (vp, stop) == Climb(w, start)
      ensures holds == With(rest, if stop then [vp, vp] else [vp])
    {
      hide Acyclic, AtRoot, With;
      vp := start;
      while true
        invariant Climb(w, vp) == Climb(w, start)
        invariant holds == With(rest, [vp])
        decreases w.depth(vp)
      {
        if AtRoot(w, vp) {
          Hold(vp, rest, [vp], [vp, vp]);
          return vp, true;
        }
        if !w.isRoot(vp) {
          return vp, false;
        }
        var cvp := vp;
        CoveredIsAbove(w, vp);
        vp := w.covered(vp);
        Hold(vp, rest, [cvp], [cvp, vp]);
        Release(cvp, rest, [cvp, vp], 0, [vp]);
        if w.mounted(vp).None? {
          Hold(vp, rest, [vp], [vp, vp]);
          return vp, true;
        }
      }
    }

    /** Through what is mounted on the component; on failure the component is still held. */
    method MountUp(w: World, ghost vp: nat, start: nat, ghost rest: multiset<nat>) returns (r: Result<nat>, cvp: nat)
      requires Acyclic(w) && holds == With(rest, [vp, start])
      modifies this`holds
      ensures r == Uppermost(w, start) && (r.Ok? ==> cvp == r.value)
      ensures holds == With(rest, [vp, cvp])
    {
      hide Acyclic, With;
      cvp := start;
      while w.mounted(cvp).Some?
        invariant Uppermost(w, cvp) == Uppermost(w, start)
        invariant holds == With(rest, [vp, cvp])
        decreases w.limit - w.depth(cvp)
      {
        MountIsBelow(w, cvp);
        r := w.vfsRoot(w.mounted(cvp).value);
        if r.Err? {
          return;
        }
        Hold(r.value, rest, [vp, cvp], [vp, cvp, r.value]);
        Release(cvp, rest, [vp, cvp, r.value], 1, [vp, r.value]);
        cvp := r.value;
      }
      r := Ok(cvp);
    }

    /** The component in the directory: virtual mounts first, then the directory itself. */
    method Component(w: World, vp: nat, name: string, ghost rest: multiset<nat>) returns (place: Place)
      requires holds == With(rest, [vp])
      modifies this`holds
      ensures place == PlaceIn(w, vp, name) && holds == With(rest, PlaceHolds(vp, place))
    {
      hide With;
      if w.entries(vp) != [] {
        if w.access(vp).Some? {
          return Broken(w.access(vp).value);
        }
        var e := FindEntry(w.entries(vp), name);
        if e.Some? {
          var root := w.vfsRoot(e.value);
          if root.Err? {
            return Broken(root.error);
          }
          Hold(root.value, rest, [vp], [vp, root.value]);
          return Settled(vp, root.value);
        }
      }
      var found := w.lookup(vp, name);
      if found.Err? {
        return Missing(vp, found.error);
      }
      Hold(found.value, rest, [vp], [vp, found.value]);
      place := Plain(vp, found.value);
    }

    /** begin: a name that starts with a slash is taken from the root. */
    method BeginAt(w: World, start: nat, name: string, ghost nlink: nat, ghost rest: multiset<nat>)
      returns (vp: nat, path: string)
      requires holds == With(rest, [start])
      modifies this`holds
      ensures holds == With(rest, [vp]) && Go(vp, path, nlink) == Begin(w, start, name, nlink)
    {
      hide With;
      vp, path := start, name;
      if name != [] && name[0] == '/' {
        Release(vp, rest, [vp], 0, []);
        path := PnSkipSlash(path);
        vp := if w.rdir.Some? then w.rdir.value else w.rootdir;
        Hold(vp, rest, [], [vp]);
      }
    }

    /** The last component has been found: hand over what is wanted and release the rest. */
    method HandOver(w: World, vp: nat, cvp: nat, name: string, want: Want, ghost rest: multiset<nat>)
      returns (out: Outcome)
      requires holds == With(rest, [vp, cvp])
      modifies this`holds
      ensures out == Finish(w, vp, cvp, name, want) && holds == With(rest, Returned(out))
    {
      hide With;
      var dir, comp := None, None;
      if want.dir {
        if w.same(vp, cvp) {
          Release(vp, rest, [vp, cvp], 0, [cvp]);
          Release(cvp, rest, [cvp], 0, []);
          return Failed(EEXIST);
        }
        dir := Some(vp);
      } else {
        Release(vp, rest, [vp, cvp], 0, [cvp]);
      }
      if want.comp {
        comp := Some(cvp);
      } else {
        Release(cvp, rest, if want.dir then [vp, cvp] else [cvp], if want.dir then 1 else 0,
                if want.dir then [vp] else []);
      }
      out := Found(dir, comp, name);
      assert Returned(out) == (if want.dir then [vp] else []) + (if want.comp then [cvp] else []);
      assert [vp] + [cvp] == [vp, cvp] && [vp] + [] == [vp] && [] + [cvp] == [cvp];
    }

    /** A symbolic link in the way: its text goes before the rest of the path. */
    method FollowLink(w: World, link: nat, left: string) returns (r: Result<string>)
      requires Valid()
      modifies this`buffers, this`serial
      ensures Valid() && buffers == old(buffers) && r == Combined(w, link, left)
    {
      var beyond: char := *;
      var text, b, after := GetSymlink(w, link, beyond);
      if text.Err? {
        return text;
      }
      var linkpath := if text.value == [] then "." else text.value;
      if |left| + |linkpath| >= MAXPATHLEN {
        r := Err(ENAMETOOLONG);
      } else {
        r := Ok(linkpath + left);
      }
      PnFree(b);
    }

    /** bad: release what is held. */
    method Bad(vp: nat, cvp: Option<nat>, ghost rest: multiset<nat>)
      requires holds == With(rest, if cvp.Some? then [vp, cvp.value] else [vp])
      modifies this`holds
      ensures holds == With(rest, [])
    {
      hide With;
      if cvp.Some? {
        Release(cvp.value, rest, [vp, cvp.value], 1, [vp]);
      }
      Release(vp, rest, [vp], 0, []);
    }

    /** A component has been found where `place` says; vp and, unless it is missing, the component are held. */
    method Proceed(w: World, place: Place, vp: nat, name: string, left: string, nlink: nat, want: Want,
                   ghost rest: multiset<nat>) returns (turn: Turn)
      requires Acyclic(w) && Valid() && (!place.Broken? ==> place.vp == vp)
      requires holds == With(rest, PlaceHolds(vp, place))
      modifies this
      ensures Valid() && buffers == old(buffers) && turn == Resolve(w, place, name, left, nlink, want)
      ensures holds == With(rest, TurnHolds(turn))
    {
      hide Acyclic, Combined, Finish, Uppermost, SkipSlash, With;
      match place {
        case Broken(e) =>
          Bad(vp, None, rest);
          return Stop(Failed(e));
        case Missing(v, e) =>
          if left != [] || !want.dir || e == EACCES {
            Bad(vp, None, rest);
            return Stop(Failed(e));
          }
          assert [vp] + [] == [vp];
          return Stop(Found(Some(vp), None, name));
        case Plain(v, c) =>
          if w.isLink(c) && (want.follow || left != []) {
            turn := LinkTurn(w, vp, c, left, nlink, rest);
            return;
          }
          var up, cvp := MountUp(w, vp, c, rest);
          if up.Err? {
            Bad(vp, Some(cvp), rest);
            return Stop(Failed(up.error));
          }
          turn := OnwardTurn(w, vp, cvp, name, left, nlink, want, rest);
        case Settled(v, c) =>
          turn := OnwardTurn(w, vp, c, name, left, nlink, want, rest);
      }
    }

    method LinkTurn(w: World, vp: nat, cvp: nat, left: string, nlink: nat, ghost rest: multiset<nat>)
      returns (turn: Turn)
      requires Valid() && holds == With(rest, [vp, cvp])
      modifies this
      ensures Valid() && buffers == old(buffers)
      ensures nlink + 1 > MAXSYMLINKS ==> turn == Stop(Failed(ELOOP))
      ensures nlink + 1 <= MAXSYMLINKS ==>
        turn == (var path := Combined(w, cvp, left);
                 if path.Err? then Stop(Failed(path.error)) else Begin(w, vp, path.value, nlink + 1))
      ensures holds == With(rest, TurnHolds(turn))
    {
      hide Combined, Begin, With;
      if nlink + 1 > MAXSYMLINKS {
        Bad(vp, Some(cvp), rest);
        return Stop(Failed(ELOOP));
      }
      var r := FollowLink(w, cvp, left);
      if r.Err? {
        Bad(vp, Some(cvp), rest);
        return Stop(Failed(r.error));
      }
      Release(cvp, rest, [vp, cvp], 1, [vp]);
      var vp1, path := BeginAt(w, vp, r.value, nlink + 1, rest);
      turn := Go(vp1, path, nlink + 1);
    }

    /** skip: finish, or make the component the current directory. */
    method OnwardTurn(w: World, vp: nat, cvp: nat, name: string, left: string, nlink: nat, want: Want,
                      ghost rest: multiset<nat>) returns (turn: Turn)
      requires holds == With(rest, [vp, cvp])
      modifies this`holds
      ensures turn == After(w, vp, cvp, name, left, nlink, want)
      ensures holds == With(rest, TurnHolds(turn))
    {
      hide With;
      if left == [] {
        var out := HandOver(w, vp, cvp, name, want, rest);
        return Stop(out);
      }
      var path := PnSkipSlash(left);
      Release(vp, rest, [vp, cvp], 0, [cvp]);
      turn := Go(cvp, path, nlink);
    }

    /** next: deal with one component. */
    method OneTurn(w: World, start: nat, path: string, nlink: nat, want: Want, ghost rest: multiset<nat>)
      returns (turn: Turn)
      requires Acyclic(w) && Valid() && holds == With(rest, [start])
      modifies this
      ensures Valid() && buffers == old(buffers) && turn == TurnOf(w, start, path, nlink, want)
      ensures holds == With(rest, TurnHolds(turn))
    {
      hide Acyclic, Strip, CString, PlaceIn, Climb, Resolve, With;
      var vp := start;
      if !w.isDir(vp) {
        Bad(vp, None, rest);
        return Stop(Failed(ENOTDIR));
      }
      var stripped := PnGetComponent(path);
      if stripped.None? {
        Bad(vp, None, rest);
        return Stop(Failed(ENAMETOOLONG));
      }
      var component, left := CString(stripped.value.0), stripped.value.1;
      if component == [] {
        if want.dir || !want.comp {
          Bad(vp, None, rest);
        }
        assert [] + [vp] == [vp] && Returned(Found(None, None, ".")) == [];
        return if want.dir then Stop(Failed(EEXIST)) else Stop(Found(None, if want.comp then Some(vp) else None, "."));
      }
      var settled := false;
      if component == ".." {
        vp, settled := ClimbUp(w, vp, rest);
      }
      var place := Settled(vp, vp);
      if !settled {
        place := Component(w, vp, component, rest);
        PlaceIsHere(w, vp, component);
      }
      turn := Proceed(w, place, vp, component, left, nlink, want, rest);
    }

    /**
     * lookuppn. It ends, because each turn takes a component off the path or
     * follows one of at most MAXSYMLINKS links; it finds what the reference
     * finds; it holds exactly the vnodes it returns, none on an error; and no
     * pathname buffer is left over or freed twice.
     */
    method LookupPn(w: World, name: string, want: Want) returns (out: Outcome)
      requires Acyclic(w) && Valid()
      modifies this
      ensures Valid() && out == Lookup(w, name, want)
      ensures holds == old(holds) + multiset(Returned(out)) && buffers == old(buffers)
    {
      hide Acyclic, TurnOf, Returned;
      ghost var rest := holds;
      var nlink, vp, path := 0, w.cdir, name;
      Hold(vp, rest, [], [vp]);
      vp, path := BeginAt(w, vp, path, 0, rest);
      while true
        invariant Valid() && buffers == old(buffers) && holds == With(rest, [vp])
        invariant nlink <= MAXSYMLINKS && Translate(w, vp, path, nlink, want) == Lookup(w, name, want)
        decreases MAXSYMLINKS - nlink, |path|
      {
        TurnShrinks(w, vp, path, nlink, want);
        var turn := OneTurn(w, vp, path, nlink, want, rest);
        if turn.Stop? {
          return turn.out;
        }
        vp, path, nlink := turn.vp, turn.path, turn.nlink;
      }
    }

    /** lookupname: the caller's pathname buffer too is freed, whatever happens. */
    method LookupName(w: World, name: Result<string>, want: Want) returns (out: Outcome)
      requires Acyclic(w) && Valid()
      modifies this
      ensures Valid() && buffers == old(buffers) && holds == old(holds) + multiset(Returned(out))
      ensures out == if name.Err? then Failed(name.error) else Lookup(w, name.value, want)
    {
      hide Acyclic, Lookup;
      var b := PnAlloc();
      if name.Err? {
        PnFree(b);
        return Failed(name.error);
      }
      out := LookupPn(w, name.value, want);
      PnFree(b);
    }
  }

  lemma PlaceIsHere(w: World, v: nat, name: string)
    ensures var p := PlaceIn(w, v, name); !p.Broken? ==> p.vp == v
  {
  }

  lemma CoveredIsAbove(w: World, v: nat)
    requires Acyclic(w) && w.isRoot(v)
    ensures w.depth(w.covered(v)) < w.depth(v)
  {
  }

  lemma MountIsBelow(w: World, v: nat)
    requires Acyclic(w) && w.mounted(v).Some?
    ensures var r := w.vfsRoot(w.mounted(v).value); r.Ok? ==> w.depth(v) < w.depth(r.value) <= w.limit
  {
  }
}
