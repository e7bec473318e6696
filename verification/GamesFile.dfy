/** Validation of games.toml: the whole file is accepted or rejected, then sorted for the menu. */
module GamesFile {
  import opened Common
  import opened Games

  datatype Entry = Entry(
    allowGuests: bool, id: string, name: string, tagline: string, descriptors: seq<string>, addr: string,
    hostKey: string, order: int, version: string, alphaWarning: bool)

  /** Address splitting and host-key parsing are library calls. */
  datatype Parsers = Parsers(splitsHostPort: string -> bool, authorizedKey: string -> Option<string>)

  datatype Fault =
    | BadId | DuplicateId | EmptyName | DuplicateName | EmptyAddr | BadAddr | BadVersion | BadHostKey

  datatype LoadError = NoEntries | BadEntry(index: nat, fault: Fault)

  // ------------------------------------------------------------------ fields

  /** `^[a-z0-9-]{1,24}$` */
  predicate IsId(s: string) {
    1 <= |s| <= 24 && forall c :: c in s ==> 'a' <= c <= 'z' || '0' <= c <= '9' || c == '-'
  }

  /** `0|[1-9][0-9]*` */
  predicate IsNumeral(s: string) {
    |s| >= 1 && (forall c :: c in s ==> '0' <= c <= '9') && (s[0] == '0' ==> |s| == 1)
  }

  function SplitDots(s: string): (parts: seq<string>)
    ensures |parts| >= 1
  {
    if s == "" then [""]
    else if s[0] == '.' then [""] + SplitDots(s[1..])
    else var rest := SplitDots(s[1..]); [[s[0]] + rest[0]] + rest[1..]
  }

  /** Three numerals joined by dots. */
  predicate IsVersion(s: string) {
    var parts := SplitDots(s);
    |parts| == 3 && IsNumeral(parts[0]) && IsNumeral(parts[1]) && IsNumeral(parts[2])
  }

  predicate EntryOk(p: Parsers, e: Entry) {
    && IsId(e.id) && e.name != "" && e.addr != "" && p.splitsHostPort(e.addr)
    && (e.version == "" || IsVersion(e.version))
    && (e.hostKey == "" || p.authorizedKey(e.hostKey).Some?)
  }

  function ToGame(p: Parsers, e: Entry): Game {
    Game(e.id, e.name, e.tagline, e.addr, e.descriptors,
         if e.hostKey == "" then None else p.authorizedKey(e.hostKey),
         e.order, e.version, e.allowGuests, e.alphaWarning)
  }

  /** The record an entry stands for: every field under its own name, and the host key parsed when there is one. */
  predicate RecordOf(p: Parsers, e: Entry, g: Game) {
    && g.id == e.id && g.name == e.name && g.tagline == e.tagline && g.addr == e.addr
    && g.descriptors == e.descriptors && g.order == e.order && g.version == e.version
    && g.allowGuests == e.allowGuests && g.alphaWarning == e.alphaWarning
    && g.hostKey == if e.hostKey == "" then None else p.authorizedKey(e.hostKey)
  }

  // ------------------------------------------------------- laws of versions

  /** The decimal writing of a number. */
  function Decimal(n: nat): (s: string)
    ensures |s| >= 1
  {
    var last := ['0' + (n % 10) as char];
    if n < 10 then last else Decimal(n / 10) + last
  }

  lemma {:induction false} DecimalIsNumeral(n: nat)
    ensures IsNumeral(Decimal(n)) && (Decimal(n)[0] == '0' <==> n == 0) && '.' !in Decimal(n)
  {
    if n >= 10 {
      DecimalIsNumeral(n / 10);
    }
  }

  /** The numerals are exactly the decimal writings of the natural numbers. */
  lemma {:induction false} NumeralIsDecimal(s: string) returns (n: nat)
    requires IsNumeral(s)
    ensures s == Decimal(n)
  {
    var init, last := s[..|s| - 1], s[|s| - 1];
    assert s == init + [last] && last in s;
    var digit: nat := last as int - '0' as int;
    if init == "" {
      return digit;
    }
    assert init[0] == s[0] && forall c :: c in init ==> c in s;
    var m := NumeralIsDecimal(init);
    DecimalIsNumeral(m);
    n := 10 * m + digit;
    assert n / 10 == m && n % 10 == digit;
  }

  function Joined(parts: seq<string>): string
    requires parts != []
  {
    if |parts| == 1 then parts[0] else parts[0] + "." + Joined(parts[1..])
  }

  lemma {:induction false} SplitJoins(s: string)
    ensures s == Joined(SplitDots(s))
  {
    if s != "" {
      SplitJoins(s[1..]);
      assert s == [s[0]] + s[1..];
      var rest := SplitDots(s[1..]);
      if s[0] == '.' {
        assert ([""] + rest)[1..] == rest;
      } else {
        assert ([[s[0]] + rest[0]] + rest[1..])[1..] == rest[1..];
      }
    }
  }

  lemma {:induction false} SplitLast(part: string)
    requires '.' !in part
    ensures SplitDots(part) == [part]
  {
    if part != "" {
      SplitLast(part[1..]);
      assert part == [part[0]] + part[1..];
    }
  }

  lemma {:induction false} SplitFirst(part: string, rest: string)
    requires '.' !in part
    ensures SplitDots(part + "." + rest) == [part] + SplitDots(rest)
  {
    var s := part + "." + rest;
    if part == "" {
      assert s[1..] == rest;
    } else {
      SplitFirst(part[1..], rest);
      assert s[1..] == part[1..] + "." + rest && part == [part[0]] + part[1..];
    }
  }

  /** The versions are exactly three numbers joined by dots. */
  lemma VersionIsExact(s: string)
    ensures IsVersion(s) <==> exists a: nat, b: nat, c: nat :: s == Dotted(a, b, c)
  {
    if IsVersion(s) {
      var parts := SplitDots(s);
      SplitJoins(s);
      var a := NumeralIsDecimal(parts[0]);
      var b := NumeralIsDecimal(parts[1]);
      var c := NumeralIsDecimal(parts[2]);
      assert Joined(parts[1..]) == parts[1] + "." + parts[2];
      assert Joined(parts) == Dotted(a, b, c);
    }
    if a: nat, b: nat, c: nat :| s == Dotted(a, b, c) {
      DottedIsVersion(a, b, c);
    }
  }

  function Dotted(a: nat, b: nat, c: nat): string {
    Decimal(a) + "." + (Decimal(b) + "." + Decimal(c))
  }

  lemma DottedIsVersion(a: nat, b: nat, c: nat)
    ensures IsVersion(Dotted(a, b, c))
  {
    DecimalIsNumeral(a);
    DecimalIsNumeral(b);
    DecimalIsNumeral(c);
    SplitFirst(Decimal(a), Decimal(b) + "." + Decimal(c));
    SplitFirst(Decimal(b), Decimal(c));
    SplitLast(Decimal(c));
  }

  // ----------------------------------------------------- sequences and orders

  function Map<A, B>(f: A -> B, s: seq<A>): (r: seq<B>)
    ensures |r| == |s| && forall i :: 0 <= i < |s| ==> r[i] == f(s[i])
  {
    seq(|s|, i requires 0 <= i < |s| => f(s[i]))
  }

  function Ids(entries: seq<Entry>): seq<string> { Map((e: Entry) => e.id, entries) }

  function Names(entries: seq<Entry>): seq<string> { Map((e: Entry) => e.name, entries) }

  ghost predicate Distinct<T(!new)>(s: seq<T>) {
    forall i, j :: 0 <= i < j < |s| ==> s[i] != s[j]
  }

  /** Go's string order. */
  predicate Less(a: string, b: string) {
    b != "" && (a == "" || a[0] < b[0] || (a[0] == b[0] && Less(a[1..], b[1..])))
  }

  lemma {:induction false} LessIsStrict(a: string, b: string)
    ensures !(Less(a, b) && Less(b, a)) && (Less(a, b) || Less(b, a) || a == b)
  {
    if a != "" && b != "" {
      LessIsStrict(a[1..], b[1..]);
      assert a == [a[0]] + a[1..] && b == [b[0]] + b[1..];
    }
  }

  lemma {:induction false} LessTransitive(a: string, b: string, c: string)
    requires Less(a, b) && Less(b, c)
    ensures Less(a, c)
  {
    if a != "" && a[0] == b[0] == c[0] {
      LessTransitive(a[1..], b[1..], c[1..]);
    }
  }

  /** The strings agree up to place i, where the first has the smaller character. */
  ghost predicate DifferAt(a: string, b: string, i: nat) {
    i < |a| && i < |b| && a[..i] == b[..i] && a[i] < b[i]
  }

  lemma DifferShifts(a: string, b: string, i: nat)
    requires a != "" && b != "" && a[0] == b[0]
    ensures DifferAt(a, b, i + 1) <==> DifferAt(a[1..], b[1..], i)
  {
    if i < |a| - 1 && i < |b| - 1 {
      assert a[..i + 1] == [a[0]] + a[1..][..i] && b[..i + 1] == [b[0]] + b[1..][..i];
      assert a[1..][..i] == a[..i + 1][1..] && b[1..][..i] == b[..i + 1][1..];
    }
  }

  /** Dictionary order: a proper prefix comes first, and otherwise the first difference decides. */
  lemma {:induction false} LessIsLexicographic(a: string, b: string)
    ensures Less(a, b) <==> a < b || exists i: nat :: DifferAt(a, b, i)
  {
    if a != "" && b != "" {
      if a[0] == b[0] {
        LessIsLexicographic(a[1..], b[1..]);
        assert a == [a[0]] + a[1..] && b == [b[0]] + b[1..];
        if i: nat :| DifferAt(a[1..], b[1..], i) {
          DifferShifts(a, b, i);
        }
        if i: nat :| DifferAt(a, b, i) {
          DifferShifts(a, b, i - 1);
        }
      } else if a[0] < b[0] {
        assert DifferAt(a, b, 0);
      } else {
        assert forall i: nat :: DifferAt(a, b, i) ==> i > 0 ==> a[..i][0] == b[..i][0];
      }
    }
  }

  /** The menu order: `order` first, then the ID. */
  predicate Before(a: Game, b: Game) {
    a.order < b.order || (a.order == b.order && Less(a.id, b.id))
  }

  ghost predicate Ordered(games: seq<Game>) {
    forall i, j :: 0 <= i < j < |games| ==> Before(games[i], games[j])
  }

  /** Stable insertion: after everything not greater than `g`. */
  function Insert(g: Game, games: seq<Game>): seq<Game> {
    if games == [] || Before(g, games[0]) then [g] + games
    else [games[0]] + Insert(g, games[1..])
  }

  function StableSort(games: seq<Game>): seq<Game> {
    if games == [] then []
    else Insert(games[|games| - 1], StableSort(games[..|games| - 1]))
  }

  lemma BeforeIsStrictOrder(a: Game, b: Game, c: Game)
    ensures !(Before(a, b) && Before(b, a))
    ensures a.id != b.id ==> Before(a, b) || Before(b, a)
    ensures Before(a, b) && Before(b, c) ==> Before(a, c)
  {
    LessIsStrict(a.id, b.id);
    if Less(a.id, b.id) && Less(b.id, c.id) {
      LessTransitive(a.id, b.id, c.id);
    }
  }

  lemma {:induction false} InsertCounts(g: Game, games: seq<Game>)
    ensures multiset(Insert(g, games)) == multiset(games) + multiset{g}
  {
    if games != [] {
      InsertCounts(g, games[1..]);
      assert games == [games[0]] + games[1..];
    }
  }

  lemma {:induction false} InsertKeepsOrder(g: Game, games: seq<Game>)
    requires Ordered(games) && forall h :: h in games ==> h.id != g.id
    ensures Ordered(Insert(g, games))
  {
    if games == [] {
    } else if Before(g, games[0]) {
      forall j | 0 <= j < |games| ensures Before(g, games[j]) {
        BeforeIsStrictOrder(g, games[0], games[j]);
      }
    } else {
      var rest := Insert(g, games[1..]);
      InsertKeepsOrder(g, games[1..]);
      InsertCounts(g, games[1..]);
      BeforeIsStrictOrder(games[0], g, g);
      forall j | 0 <= j < |rest| ensures Before(games[0], rest[j]) {
        assert rest[j] in multiset(rest);
        assert rest[j] == g || rest[j] in games[1..];
      }
    }
  }

  lemma {:induction false} SortIsOrderedPermutation(games: seq<Game>)
    requires forall i, j :: 0 <= i < j < |games| ==> games[i].id != games[j].id
    ensures multiset(StableSort(games)) == multiset(games)
    ensures Ordered(StableSort(games))
  {
    if games != [] {
      var init, last := games[..|games| - 1], games[|games| - 1];
      assert games == init + [last];
      SortIsOrderedPermutation(init);
      forall h | h in StableSort(init) ensures h.id != last.id {
        assert h in multiset(StableSort(init));
        assert h in init;
      }
      InsertCounts(last, StableSort(init));
      InsertKeepsOrder(last, StableSort(init));
    }
  }

  lemma SameLeast(a: seq<Game>, b: seq<Game>)
    requires a != [] && b != [] && Ordered(a) && Ordered(b) && a[0] in b && b[0] in a
    ensures a[0] == b[0]
  {
    var i := FindIn(a, b[0]);
    var j := FindIn(b, a[0]);
    BeforeIsStrictOrder(a[0], b[0], b[0]);
  }

  lemma SameHeadSameTails(a: seq<Game>, b: seq<Game>)
    requires a != [] && b != [] && a[0] == b[0] && multiset(a) == multiset(b)
    ensures multiset(a[1..]) == multiset(b[1..])
  {
    assert a == [a[0]] + a[1..] && b == [b[0]] + b[1..];
    assert multiset(a[1..]) == multiset(a) - multiset{a[0]};
    assert multiset(b[1..]) == multiset(b) - multiset{b[0]};
  }

  /** An ordered list is determined by its elements alone. */
  lemma {:induction false} OrderedIsUnique(a: seq<Game>, b: seq<Game>)
    requires Ordered(a) && Ordered(b) && multiset(a) == multiset(b)
    ensures a == b
  {
    assert |a| == |multiset(a)| && |b| == |multiset(b)|;
    if a != [] {
      assert a[0] in multiset(b) && b[0] in multiset(a);
      SameLeast(a, b);
      SameHeadSameTails(a, b);
      OrderedIsUnique(a[1..], b[1..]);
      assert a == [a[0]] + a[1..] && b == [b[0]] + b[1..];
    }
  }

  function Without<T>(s: seq<T>, k: nat): seq<T>
    requires k < |s|
  {
    s[..k] + s[k + 1..]
  }

  lemma WithoutCounts<T>(s: seq<T>, k: nat)
    requires k < |s|
    ensures multiset(Without(s, k)) == multiset(s) - multiset{s[k]}
    ensures multiset(s) == multiset(Without(s, k)) + multiset{s[k]}
  {
    var left, right := s[..k], s[k + 1..];
    assert s == left + ([s[k]] + right);
    assert multiset(left + right) == multiset(left) + multiset(right);
    assert multiset([s[k]] + right) == multiset{s[k]} + multiset(right);
  }

  lemma MapWithoutCounts<A, B>(f: A -> B, s: seq<A>, k: nat)
    requires k < |s|
    ensures multiset(Map(f, s)) == multiset(Map(f, Without(s, k))) + multiset{f(s[k])}
  {
    WithoutCounts(Map(f, s), k);
    assert Map(f, Without(s, k)) == Without(Map(f, s), k);
  }

  /** Mapping commutes with permuting. */
  lemma {:induction false} MapPermutes<A, B>(f: A -> B, a: seq<A>, b: seq<A>)
    requires multiset(a) == multiset(b)
    ensures multiset(Map(f, a)) == multiset(Map(f, b))
    decreases |a|
  {
    assert |a| == |multiset(a)| && |b| == |multiset(b)|;
    if a != [] {
      var k := FindIn(b, a[0]) by { assert a[0] in multiset(b); }
      var restA, restB := Without(a, 0), Without(b, k);
      assert multiset(restA) == multiset(restB) by {
        WithoutCounts(a, 0);
        WithoutCounts(b, k);
      }
      MapPermutes(f, restA, restB);
      MapWithoutCounts(f, a, 0);
      MapWithoutCounts(f, b, k);
    }
  }

  lemma FindIn<T>(s: seq<T>, x: T) returns (k: nat)
    requires x in s
    ensures k < |s| && s[k] == x
  {
    k :| 0 <= k < |s| && s[k] == x;
  }

  lemma RepeatCounts<T>(s: seq<T>, i: nat, j: nat)
    requires i < j < |s| && s[i] == s[j]
    ensures multiset(s)[s[i]] >= 2
  {
    WithoutCounts(s, j);
    assert Without(s, j)[i] == s[i];
    assert s[i] in Without(s, j);
  }

  lemma CountRepeats<T>(s: seq<T>, x: T) returns (i: nat, j: nat)
    requires multiset(s)[x] >= 2
    ensures i < |s| && j < |s| && i != j && s[i] == s[j] == x
  {
    assert x in multiset(s);
    i := FindIn(s, x);
    WithoutCounts(s, i);
    assert x in multiset(Without(s, i));
    var k := FindIn(Without(s, i), x);
    j := if k < i then k else k + 1;
  }

  lemma DistinctIsCounting<T(!new)>(s: seq<T>)
    ensures Distinct(s) <==> forall x :: multiset(s)[x] <= 1
  {
    if i, j :| 0 <= i < j < |s| && s[i] == s[j] {
      RepeatCounts(s, i, j);
    }
    if x :| multiset(s)[x] >= 2 {
      var i, j := CountRepeats(s, x);
      assert s[if i < j then i else j] == s[if i < j then j else i];
    }
  }

  // -------------------------------------------------------------- validation

  /** A file is accepted exactly when every entry is sound and IDs and names are unique. */
  ghost predicate Acceptable(p: Parsers, entries: seq<Entry>) {
    && entries != [] && (forall e :: e in entries ==> EntryOk(p, e))
    && Distinct(Ids(entries)) && Distinct(Names(entries))
  }

  function Listed(p: Parsers, entries: seq<Entry>): seq<Game> {
    Map((e: Entry) => ToGame(p, e), entries)
  }

  function Menu(p: Parsers, entries: seq<Entry>): seq<Game> {
    StableSort(Listed(p, entries))
  }

  /** The first check an entry fails, given the entries before it. */
  function FaultOf(p: Parsers, prior: seq<Entry>, e: Entry): Option<Fault> {
    if !IsId(e.id) then Some(BadId)
    else if e.id in Ids(prior) then Some(DuplicateId)
    else if e.name == "" then Some(EmptyName)
    else if e.name in Names(prior) then Some(DuplicateName)
    else if e.addr == "" then Some(EmptyAddr)
    else if !p.splitsHostPort(e.addr) then Some(BadAddr)
    else if e.version != "" && !IsVersion(e.version) then Some(BadVersion)
    else if e.hostKey != "" && p.authorizedKey(e.hostKey).None? then Some(BadHostKey)
    else None
  }

  /** What is wrong with an entry, check by check in their order. */
  ghost function Wrongs(p: Parsers, prior: seq<Entry>, e: Entry): seq<(Fault, bool)> {
    [ (BadId, !(1 <= |e.id| <= 24 && forall c :: c in e.id ==> 'a' <= c <= 'z' || '0' <= c <= '9' || c == '-')),
      (DuplicateId, exists q :: q in prior && q.id == e.id),
      (EmptyName, e.name == ""),
      (DuplicateName, exists q :: q in prior && q.name == e.name),
      (EmptyAddr, e.addr == ""),
      (BadAddr, !p.splitsHostPort(e.addr)),
      (BadVersion, e.version != "" && forall a: nat, b: nat, c: nat :: e.version != Dotted(a, b, c)),
      (BadHostKey, e.hostKey != "" && p.authorizedKey(e.hostKey) == None) ]
  }

  lemma SeenIsListed(prior: seq<Entry>, e: Entry)
    ensures e.id in Ids(prior) <==> exists q :: q in prior && q.id == e.id
    ensures e.name in Names(prior) <==> exists q :: q in prior && q.name == e.name
  {
    if q :| q in prior && q.id == e.id {
      var k := FindIn(prior, q);
      assert Ids(prior)[k] == e.id;
    }
    if q :| q in prior && q.name == e.name {
      var k := FindIn(prior, q);
      assert Names(prior)[k] == e.name;
    }
  }

  /** An entry's fault is the first thing wrong with it, and it is sound when nothing is. */
  lemma FaultIsFirstWrong(p: Parsers, prior: seq<Entry>, e: Entry)
    ensures var w := Wrongs(p, prior, e);
            match FaultOf(p, prior, e)
            case None => forall k :: 0 <= k < |w| ==> !w[k].1
            case Some(fault) => exists k :: 0 <= k < |w| && w[k] == (fault, true) && forall j :: 0 <= j < k ==> !w[j].1
  {
    SeenIsListed(prior, e);
    VersionIsExact(e.version);
    var w := Wrongs(p, prior, e);
    if FaultOf(p, prior, e).Some? {
      var k := match FaultOf(p, prior, e).value
               case BadId => 0 case DuplicateId => 1 case EmptyName => 2 case DuplicateName => 3
               case EmptyAddr => 4 case BadAddr => 5 case BadVersion => 6 case BadHostKey => 7;
      assert w[k] == (FaultOf(p, prior, e).value, true);
    }
  }

  ghost predicate CleanTo(p: Parsers, entries: seq<Entry>, n: nat)
    requires n <= |entries|
  {
    forall j :: 0 <= j < n ==> FaultOf(p, entries[..j], entries[j]) == None
  }

  lemma SeenBefore(entries: seq<Entry>, j: nat)
    requires j < |entries|
    ensures entries[j].id in Ids(entries[..j]) <==> exists k :: 0 <= k < j && Ids(entries)[k] == Ids(entries)[j]
    ensures entries[j].name in Names(entries[..j]) <==> exists k :: 0 <= k < j && Names(entries)[k] == Names(entries)[j]
  {
    assert Ids(entries)[..j] == Ids(entries[..j]);
    assert Names(entries)[..j] == Names(entries[..j]);
  }

  lemma CleanFileIsAcceptable(p: Parsers, entries: seq<Entry>)
    requires entries != [] && CleanTo(p, entries, |entries|)
    ensures Acceptable(p, entries)
  {
    forall e | e in entries ensures EntryOk(p, e) {
      var j := FindIn(entries, e);
      assert FaultOf(p, entries[..j], entries[j]) == None;
    }
    forall i, j | 0 <= i < j < |entries|
      ensures Ids(entries)[i] != Ids(entries)[j] && Names(entries)[i] != Names(entries)[j]
    {
      assert FaultOf(p, entries[..j], entries[j]) == None;
      SeenBefore(entries, j);
    }
  }

  /** The checks, taken one by one, amount to the definition of an acceptable file. */
  lemma FirstFaultRejects(p: Parsers, entries: seq<Entry>)
    ensures Acceptable(p, entries) <==> entries != [] && CleanTo(p, entries, |entries|)
  {
    if entries != [] && CleanTo(p, entries, |entries|) {
      CleanFileIsAcceptable(p, entries);
    }
    if Acceptable(p, entries) {
      forall j | 0 <= j < |entries| ensures FaultOf(p, entries[..j], entries[j]) == None {
        assert entries[j] in entries;
        SeenBefore(entries, j);
      }
    }
  }

  /** The checks on one entry, against the IDs and names seen before it. */
  method CheckEntry(p: Parsers, e: Entry, seen: set<string>, seenName: set<string>, ghost prior: seq<Entry>)
    returns (fault: Option<Fault>)
    requires forall id :: id in seen <==> id in Ids(prior)
    requires forall name :: name in seenName <==> name in Names(prior)
    ensures fault == FaultOf(p, prior, e)
  {
    if !IsId(e.id) { return Some(BadId); }
    if e.id in seen { return Some(DuplicateId); }
    if e.name == "" { return Some(EmptyName); }
    if e.name in seenName { return Some(DuplicateName); }
    if e.addr == "" { return Some(EmptyAddr); }
    if !p.splitsHostPort(e.addr) { return Some(BadAddr); }
    if e.version != "" && !IsVersion(e.version) { return Some(BadVersion); }
    if e.hostKey != "" && p.authorizedKey(e.hostKey).None? { return Some(BadHostKey); }
    return None;
  }

  /** Accepts or rejects the file as a whole; a rejection names the first fault of the first bad entry. */
  method Validate(p: Parsers, entries: seq<Entry>) returns (r: Result<seq<Game>, LoadError>)
    ensures r.Ok? <==> Acceptable(p, entries)
    ensures r.Ok? ==> r.value == Menu(p, entries) && IsMenuOf(p, entries, r.value)
    ensures r == Err(NoEntries) <==> entries == []
    ensures r.Err? && entries != [] ==>
              && r.error.BadEntry? && r.error.index < |entries|
              && FaultOf(p, entries[..r.error.index], entries[r.error.index]) == Some(r.error.fault)
              && CleanTo(p, entries, r.error.index)
  {
    if |entries| == 0 {
      return Err(NoEntries);
    }
    var seen: set<string>, seenName: set<string>, games: seq<Game> := {}, {}, [];
    for i := 0 to |entries|
      invariant forall id :: id in seen <==> id in Ids(entries[..i])
      invariant forall name :: name in seenName <==> name in Names(entries[..i])
      invariant games == Listed(p, entries[..i])
      invariant CleanTo(p, entries, i)
    {
      var e := entries[i];
      var fault := CheckEntry(p, e, seen, seenName, entries[..i]);
      if fault.Some? {
        FirstFaultRejects(p, entries);
        return Err(BadEntry(i, fault.value));
      }
      PrefixGrows(p, entries, i);
      seen, seenName := seen + {e.id}, seenName + {e.name};
      games := games + [ToGame(p, e)];
    }
    FirstFaultRejects(p, entries);
    assert entries[..|entries|] == entries;
    MenuHasEveryEntry(p, entries);
    return Ok(StableSort(games));
  }

  lemma PrefixGrows(p: Parsers, entries: seq<Entry>, i: nat)
    requires i < |entries|
    ensures Ids(entries[..i + 1]) == Ids(entries[..i]) + [entries[i].id]
    ensures Names(entries[..i + 1]) == Names(entries[..i]) + [entries[i].name]
    ensures Listed(p, entries[..i + 1]) ==
            Listed(p, entries[..i]) + [ToGame(p, entries[i])]
  {}

  /** The menu of an accepted file: its entries, all of them, strictly ordered, with distinct IDs. */
  lemma MenuIsOrderedPermutation(p: Parsers, entries: seq<Entry>)
    requires Acceptable(p, entries)
    ensures multiset(Menu(p, entries)) == multiset(Listed(p, entries))
    ensures Ordered(Menu(p, entries))
    ensures forall i, j :: 0 <= i < j < |Menu(p, entries)| ==>
              Menu(p, entries)[i].id != Menu(p, entries)[j].id && Menu(p, entries)[i].name != Menu(p, entries)[j].name
  {
    var listed := Listed(p, entries);
    assert forall i :: 0 <= i < |listed| ==> listed[i].id == Ids(entries)[i] && listed[i].name == Names(entries)[i];
    SortIsOrderedPermutation(listed);
    var menu := Menu(p, entries);
    MapPermutes((g: Game) => g.id, listed, menu);
    MapPermutes((g: Game) => g.name, listed, menu);
    assert Map((g: Game) => g.id, listed) == Ids(entries) && Map((g: Game) => g.name, listed) == Names(entries);
    DistinctIsCounting(Ids(entries));
    DistinctIsCounting(Names(entries));
    DistinctIsCounting(Map((g: Game) => g.id, menu));
    DistinctIsCounting(Map((g: Game) => g.name, menu));
    forall i, j | 0 <= i < j < |menu| ensures menu[i].id != menu[j].id && menu[i].name != menu[j].name {
      assert Map((g: Game) => g.id, menu)[i] != Map((g: Game) => g.id, menu)[j];
      assert Map((g: Game) => g.name, menu)[i] != Map((g: Game) => g.name, menu)[j];
    }
  }

  /**
   The menu of a file: one record for each entry and no other, lowest `order` first, and by ID within one `order`.
   */
  ghost predicate IsMenuOf(p: Parsers, entries: seq<Entry>, menu: seq<Game>) {
    && |menu| == |entries| && InMenuOrder(menu)
    && (forall e :: e in entries ==> HasRecordOf(p, menu, e)) && (forall g :: g in menu ==> HasEntryOf(p, entries, g))
  }

  ghost predicate InMenuOrder(menu: seq<Game>) {
    forall i, j :: 0 <= i < j < |menu| ==>
      menu[i].order < menu[j].order || (menu[i].order == menu[j].order && Less(menu[i].id, menu[j].id))
  }

  ghost predicate HasRecordOf(p: Parsers, menu: seq<Game>, e: Entry) {
    exists g :: g in menu && RecordOf(p, e, g)
  }

  ghost predicate HasEntryOf(p: Parsers, entries: seq<Entry>, g: Game) {
    exists e :: e in entries && RecordOf(p, e, g)
  }

  lemma MenuHasEveryEntry(p: Parsers, entries: seq<Entry>)
    requires Acceptable(p, entries)
    ensures IsMenuOf(p, entries, Menu(p, entries))
  {
    var listed, menu := Listed(p, entries), Menu(p, entries);
    MenuIsOrderedPermutation(p, entries);
    assert |menu| == |multiset(menu)| && |listed| == |multiset(listed)|;
    forall e | e in entries ensures HasRecordOf(p, menu, e) {
      var k := FindIn(entries, e);
      assert listed[k] in multiset(menu) && RecordOf(p, e, listed[k]);
    }
    forall g | g in menu ensures HasEntryOf(p, entries, g) {
      assert g in multiset(listed);
      var k := FindIn(listed, g);
      assert RecordOf(p, entries[k], g);
    }
  }

  /** Reordering the file changes neither the verdict nor the menu. */
  lemma FileOrderIsIrrelevant(p: Parsers, a: seq<Entry>, b: seq<Entry>)
    requires multiset(a) == multiset(b)
    ensures Acceptable(p, a) <==> Acceptable(p, b)
    ensures Acceptable(p, a) ==> Menu(p, a) == Menu(p, b)
  {
    MapPermutes((e: Entry) => e.id, a, b);
    MapPermutes((e: Entry) => e.name, a, b);
    DistinctIsCounting(Ids(a));
    DistinctIsCounting(Ids(b));
    DistinctIsCounting(Names(a));
    DistinctIsCounting(Names(b));
    assert forall e :: e in a <==> e in multiset(a);
    assert forall e :: e in b <==> e in multiset(b);
    assert |a| == |multiset(a)| && |b| == |multiset(b)|;
    if Acceptable(p, a) {
      MapPermutes((e: Entry) => ToGame(p, e), a, b);
      MenuIsOrderedPermutation(p, a);
      MenuIsOrderedPermutation(p, b);
      OrderedIsUnique(Menu(p, a), Menu(p, b));
    }
  }
}
