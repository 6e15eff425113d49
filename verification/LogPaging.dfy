/**
 The Logs tab and the view that answers it. The view reads the newest id, then the rows, then the known tags, and
 lines may be stored or pruned in between; the page moves a cursor over the ids. Lines are stored in the order of
 their ids. Each poll asks with what the inputs hold at that moment, while the lines on the page were collected
 since the last restart.
 */
module LogPaging {
  import opened Options

  type Text = string

  datatype Row = Row(id: nat, level: char, tag: Text, msg: Text)

  const FIRST_LINES := 300
  const NEXT_LINES := 1000
  const MAX_LINES := 1500
  const NEWEST_TAGS := 2000

  /** Most severe first. */
  const SEVERITIES := "EWIDV"

  /** A choice of the level select, as a position in `SEVERITIES`. */
  type Severity = n: nat | n < |SEVERITIES|

  // ----------------------------------------------------------------- the view

  /** What the three inputs hold; an empty tag or text asks for everything. */
  datatype Filter = Filter(level: Severity, tag: Text, text: Text)

  function Lower(s: Text): Text {
    seq(|s|, i requires 0 <= i < |s| => if 'A' <= s[i] <= 'Z' then s[i] - 'A' + 'a' else s[i])
  }

  predicate Contains(s: Text, part: Text) {
    part <= s || (s != [] && Contains(s[1..], part))
  }

  predicate Matches(f: Filter, r: Row) {
    && r.level in SEVERITIES[..f.level + 1]
    && (f.tag != "" ==> r.tag == f.tag)
    && (f.text != "" ==> Contains(Lower(r.msg), Lower(f.text)) || Contains(Lower(r.tag), Lower(f.text)))
  }

  function By(f: Filter): Row -> bool {
    (r: Row) => Matches(f, r)
  }

  /** The rows that match, are not pruned and come after the cursor, in the order of their ids. */
  function Matching(store: seq<Row>, pruned: set<nat>, f: Row -> bool, after: nat): seq<Row> {
    if store == [] then []
    else
      var r := store[|store| - 1];
      Matching(store[..|store| - 1], pruned, f, after) + if r.id > after && f(r) && r.id !in pruned then [r] else []
  }

  /** The first read: the newest id there is, or 0. */
  function NewestId(store: seq<Row>, pruned: set<nat>): nat {
    if store == [] then 0
    else if store[|store| - 1].id !in pruned then store[|store| - 1].id
    else NewestId(store[..|store| - 1], pruned)
  }

  function Min(a: nat, b: nat): nat { if a < b then a else b }

  /** The second read: the first rows after the cursor, or, without one, the newest. */
  function Rows(store: seq<Row>, pruned: set<nat>, f: Row -> bool, after: nat, limit: nat): seq<Row> {
    var m := Matching(store, pruned, f, after);
    var n := Min(|m|, limit);
    if after > 0 then m[..n] else m[|m| - n..]
  }

  /** The third read: the tags of the newest lines, `n` at most. */
  function KnownTags(store: seq<Row>, pruned: set<nat>, n: nat): set<Text> {
    if store == [] || n == 0 then {}
    else
      var r := store[|store| - 1];
      var front := store[..|store| - 1];
      if r.id in pruned then KnownTags(front, pruned, n) else KnownTags(front, pruned, n - 1) + {r.tag}
  }

  predicate StandsAt(s: Text, part: Text, i: nat) {
    i + |part| <= |s| && s[i..i + |part|] == part
  }

  lemma {:induction false} ContainsMeans(s: Text, part: Text)
    ensures Contains(s, part) <==> exists i: nat :: StandsAt(s, part, i)
  {
    assert part <= s <==> StandsAt(s, part, 0);
    if s != [] {
      ContainsMeans(s[1..], part);
      forall i: nat ensures StandsAt(s, part, i + 1) <==> StandsAt(s[1..], part, i) {
        StandsLater(s, part, i);
      }
      hide StandsAt;
      if i: nat :| StandsAt(s[1..], part, i) {
        assert StandsAt(s, part, i + 1);
      }
      if i: nat :| StandsAt(s, part, i) && i != 0 {
        assert StandsAt(s[1..], part, i - 1);
      }
    }
  }

  lemma {:induction false} StandsLater(s: Text, part: Text, i: nat)
    requires s != []
    ensures StandsAt(s, part, i + 1) <==> StandsAt(s[1..], part, i)
  {
    if i + 1 + |part| <= |s| {
      assert s[1..][i..i + |part|] == s[i + 1..i + 1 + |part|];
    }
  }

  /** The same letter, capital or not. */
  predicate Alike(a: char, b: char) {
    || a == b
    || ('A' <= a <= 'Z' && b as int == a as int + 32)
    || ('A' <= b <= 'Z' && a as int == b as int + 32)
  }

  predicate AlikeAt(s: Text, part: Text, i: nat) {
    i + |part| <= |s| && forall k: nat | k < |part| :: Alike(s[i + k], part[k])
  }

  /** The part stands somewhere in the text, capital letters or not. */
  ghost predicate Found(s: Text, part: Text) {
    exists i: nat :: AlikeAt(s, part, i)
  }

  lemma {:induction false} LowerOne(a: char, b: char)
    ensures Lower([a])[0] == Lower([b])[0] <==> Alike(a, b)
  {
    assert Lower([a])[0] as int == if 'A' <= a <= 'Z' then a as int + 32 else a as int;
    assert Lower([b])[0] as int == if 'A' <= b <= 'Z' then b as int + 32 else b as int;
  }

  lemma {:induction false} StandsAlike(s: Text, part: Text, i: nat)
    ensures StandsAt(Lower(s), Lower(part), i) <==> AlikeAt(s, part, i)
  {
    var low, sought := Lower(s), Lower(part);
    if i + |part| <= |s| {
      var there := low[i..i + |part|];
      forall k: nat | k < |part| ensures there[k] == sought[k] <==> Alike(s[i + k], part[k]) {
        LowerOne(s[i + k], part[k]);
      }
      hide Lower, Alike;
      assert there == sought <==> forall k: nat | k < |part| :: there[k] == sought[k];
    }
  }

  lemma {:induction false} FoundMeans(s: Text, part: Text)
    ensures Contains(Lower(s), Lower(part)) <==> Found(s, part)
  {
    ContainsMeans(Lower(s), Lower(part));
    forall i: nat ensures StandsAt(Lower(s), Lower(part), i) <==> AlikeAt(s, part, i) {
      StandsAlike(s, part, i);
    }
    hide Contains, Lower, StandsAt, AlikeAt;
    if Found(s, part) {
      var i: nat :| AlikeAt(s, part, i);
      assert StandsAt(Lower(s), Lower(part), i);
    }
  }

  /** A line matches if its level is among the chosen ones, its tag is the chosen one, and the text is found. */
  lemma {:induction false} MatchesMeans(f: Filter, r: Row)
    ensures Matches(f, r) <==>
      && (r.level == 'E' || (r.level == 'W' && f.level >= 1) || (r.level == 'I' && f.level >= 2)
          || (r.level == 'D' && f.level >= 3) || (r.level == 'V' && f.level == 4))
      && (f.tag == "" || f.tag == r.tag)
      && (f.text == "" || Found(r.msg, f.text) || Found(r.tag, f.text))
  {
    FoundMeans(r.msg, f.text);
    FoundMeans(r.tag, f.text);
    LevelsMean(f.level, r.level);
    hide Contains, Found, Lower;
  }

  lemma {:induction false} LevelsMean(n: Severity, level: char)
    ensures level in SEVERITIES[..n + 1] <==>
      level == 'E' || (level == 'W' && n >= 1) || (level == 'I' && n >= 2) || (level == 'D' && n >= 3)
      || (level == 'V' && n == 4)
  {
    var s := SEVERITIES[..n + 1];
    assert |s| == n + 1 && s[0] == 'E';
    assert n >= 1 ==> s[1] == 'W';
    assert n >= 2 ==> s[2] == 'I';
    assert n >= 3 ==> s[3] == 'D';
    assert n >= 4 ==> s[4] == 'V';
  }

  /** How many of the rows from `i` on are not pruned. */
  function Left(store: seq<Row>, pruned: set<nat>, i: nat): nat
    requires i <= |store|
    decreases |store| - i
  {
    if i == |store| then 0 else Left(store, pruned, i + 1) + if store[i].id in pruned then 0 else 1
  }

  lemma {:induction false} LeftFront(store: seq<Row>, pruned: set<nat>, i: nat)
    requires i < |store|
    ensures var n := |store| - 1;
      Left(store, pruned, i) == Left(store[..n], pruned, i) + if store[n].id in pruned then 0 else 1
    decreases |store| - i
  {
    var n := |store| - 1;
    assert Left(store, pruned, n + 1) == 0 && Left(store[..n], pruned, n) == 0;
    if i < n {
      LeftFront(store, pruned, i + 1);
    }
  }

  /** Not pruned, with fewer than `n` such rows behind it. */
  predicate NewEnough(store: seq<Row>, pruned: set<nat>, i: nat, n: nat)
    requires i < |store|
  {
    store[i].id !in pruned && Left(store, pruned, i + 1) < n
  }

  lemma {:induction false} NewEnoughFront(store: seq<Row>, pruned: set<nat>, i: nat, n: nat)
    requires i + 1 < |store| && n > 0
    ensures var last := |store| - 1;
      NewEnough(store, pruned, i, n)
      <==> NewEnough(store[..last], pruned, i, if store[last].id in pruned then n else n - 1)
  {
    LeftFront(store, pruned, i + 1);
  }

  /** The known tags are those of the `n` newest rows that are not pruned. */
  lemma {:induction false} KnownTagsMean(store: seq<Row>, pruned: set<nat>, n: nat, t: Text)
    ensures t in KnownTags(store, pruned, n) <==>
      exists i: nat :: i < |store| && store[i].tag == t && NewEnough(store, pruned, i, n)
  {
    if store != [] && n > 0 {
      var last := |store| - 1;
      var front, r := store[..last], store[last];
      var m := if r.id in pruned then n else n - 1;
      KnownTagsMean(front, pruned, m, t);
      forall i: nat | i < last
        ensures NewEnough(store, pruned, i, n) <==> NewEnough(front, pruned, i, m)
      {
        NewEnoughFront(store, pruned, i, n);
      }
      assert NewEnough(store, pruned, last, n) <==> r.id !in pruned;
      hide NewEnough;
      if i: nat :| i < last && front[i].tag == t && NewEnough(front, pruned, i, m) {
        assert store[i] == front[i] && NewEnough(store, pruned, i, n);
      }
      if i: nat :| i < |store| && store[i].tag == t && NewEnough(store, pruned, i, n) {
        if i < last {
          assert front[i] == store[i] && NewEnough(front, pruned, i, m);
        }
      }
    }
  }

  // ----------------------------------------------------------------- the page

  datatype Query = Query(generation: nat, filter: Filter, after: nat, limit: nat)

  /** One answer of the view. */
  datatype Body = Body(lines: seq<Row>, lastId: nat, tags: set<Text>)

  /** The filter of an answer that was taken over, and the cursor that it was asked from. */
  datatype Part = Part(filter: Filter, lo: nat)

  /**
   `shown` are the lines on the page, `options` the tags to choose from, `searchDue` that the timer of the search
   field is running. The rest is about the time since the last restart: the filter it was made for, all lines that
   the first answer and the later ones added, the cursor after the first, and what each answer was asked with.
   */
  datatype Page = Page(shown: seq<Row>, lastId: nat, generation: nat,
                       inputs: Filter, options: set<Text>, searchDue: bool,
                       filter: Filter, first: seq<Row>, base: nat, later: seq<Row>, parts: seq<Part>)

  function Trim(lines: seq<Row>): seq<Row> {
    if |lines| > MAX_LINES then lines[|lines| - MAX_LINES..] else lines
  }

  function Newest(lines: seq<Row>): nat {
    if lines == [] then 0 else lines[|lines| - 1].id
  }

  function Max(a: nat, b: nat): nat { if a > b then a else b }

  function Limit(lastId: nat): nat {
    if lastId > 0 then NEXT_LINES else FIRST_LINES
  }

  function NextCursor(lastId: nat, limit: nat, lines: seq<Row>, last: nat): nat {
    var first := lastId == 0;
    Max(lastId, if |lines| == limit && !first then Newest(lines) else Max(last, Newest(lines)))
  }

  /** The tag select gets the known tags; a chosen tag that is no longer among them becomes "all tags". */
  function TagsDrawn(p: Page, tags: set<Text>): Page {
    if tags == p.options then p
    else p.(options := tags, inputs := p.inputs.(tag := if p.inputs.tag in tags then p.inputs.tag else ""))
  }

  function LinesTaken(p: Page, q: Query, lines: seq<Row>, last: nat): Page {
    var r := p.(shown := Trim(p.shown + lines), lastId := NextCursor(p.lastId, q.limit, lines, last));
    if p.lastId == 0 then r.(first := lines, base := r.lastId, parts := [Part(q.filter, 0)])
    else r.(later := p.later + lines, parts := p.parts + [Part(q.filter, p.lastId)])
  }

  function Answered(p: Page, q: Query, b: Body): Page {
    if q.generation != p.generation then p else TagsDrawn(LinesTaken(p, q, b.lines, b.lastId), b.tags)
  }

  function Restarted(p: Page): Page {
    p.(shown := [], lastId := 0, generation := p.generation + 1,
       filter := p.inputs, first := [], base := 0, later := [], parts := [])
  }

  // ----------------------------------------------------------------- everything together

  /** A request on its way: asked, and after each of the view's reads. Only one is out at a time. */
  datatype Request =
    | Asked(q: Query)
    | ReadLast(q: Query, last: nat)
    | ReadRows(q: Query, last: nat, rows: seq<Row>)
    | ReadTags(q: Query, last: nat, rows: seq<Row>, tags: set<Text>)

  datatype World = World(store: seq<Row>, pruned: set<nat>, page: Page, request: Option<Request>)

  /**
   Lines come and go; someone types, which starts the timer anew, or chooses a level and a tag; the timer of the
   search field runs out; a poll asks, the view reads three times, and its answer arrives or fails.
   */
  datatype Event =
    | Store(row: Row)
    | Prune(ids: set<nat>)
    | Type(text: Text)
    | SearchTimer
    | Choose(level: Severity, tag: Text)
    | Ask | First | Second | Third | Deliver | Fail

  predicate Enabled(w: World, e: Event) {
    match e
    case Store(row) => row.id > Newest(w.store)
    case Prune(_) => true
    case Type(_) => true
    case SearchTimer => w.page.searchDue
    case Choose(_, tag) => tag == "" || tag in w.page.options
    case Ask => w.request.None?
    case First => w.request.Some? && w.request.value.Asked?
    case Second => w.request.Some? && w.request.value.ReadLast?
    case Third => w.request.Some? && w.request.value.ReadRows?
    case Deliver => w.request.Some? && w.request.value.ReadTags?
    case Fail => w.request.Some?
  }

  /** What a poll asks for: from the cursor on, with what the inputs hold now. */
  function Asking(p: Page): Query {
    Query(p.generation, p.inputs, p.lastId, Limit(p.lastId))
  }

  function Typed(p: Page, text: Text): Page {
    p.(inputs := p.inputs.(text := text), searchDue := true)
  }

  function Chosen(p: Page, level: Severity, tag: Text): Page {
    Restarted(p.(inputs := p.inputs.(level := level, tag := tag)))
  }

  function Step(w: World, e: Event): World
    requires Enabled(w, e)
  {
    match e
    case Store(row) => w.(store := w.store + [row])
    case Prune(ids) => w.(pruned := w.pruned + ids)
    case Type(text) => w.(page := Typed(w.page, text))
    case SearchTimer => w.(page := Restarted(w.page.(searchDue := false)))
    case Choose(level, tag) => w.(page := Chosen(w.page, level, tag))
    case Ask => w.(request := Some(Asked(Asking(w.page))))
    case First => w.(request := Some(ReadLast(w.request.value.q, NewestId(w.store, w.pruned))))
    case Second =>
      var q := w.request.value.q;
      w.(request := Some(ReadRows(q, w.request.value.last, Rows(w.store, w.pruned, By(q.filter), q.after, q.limit))))
    case Third =>
      var r := w.request.value;
      w.(request := Some(ReadTags(r.q, r.last, r.rows, KnownTags(w.store, w.pruned, NEWEST_TAGS))))
    case Deliver =>
      var r := w.request.value;
      w.(page := Answered(w.page, r.q, Body(r.rows, r.last, r.tags)), request := None)
    case Fail => w.(request := None)
  }

  function Fresh(f: Filter): Page {
    Page([], 0, 0, f, {}, false, f, [], 0, [], [])
  }

  /** The page as it is loaded: all tags, no text. */
  function Start(level: Severity): World {
    World([], {}, Fresh(Filter(level, "", "")), None)
  }

  // ----------------------------------------------------------------- what the reads return

  predicate Rising(rows: seq<Row>) {
    forall i, j | 0 <= i < j < |rows| :: rows[i].id < rows[j].id
  }

  predicate Within(rows: seq<Row>, lo: nat, hi: nat) {
    forall i | 0 <= i < |rows| :: lo < rows[i].id <= hi
  }

  predicate AllMatch(rows: seq<Row>, f: Row -> bool) {
    forall i | 0 <= i < |rows| :: f(rows[i])
  }

  /** Every stored row between the cursors that matches is among the rows, or has been pruned. */
  ghost predicate Covers(store: seq<Row>, pruned: set<nat>, f: Row -> bool, lo: nat, hi: nat, rows: seq<Row>) {
    forall i | 0 <= i < |store| && lo < store[i].id <= hi && f(store[i]) :: store[i] in rows || store[i].id in pruned
  }

  predicate AllStored(rows: seq<Row>, store: seq<Row>) {
    forall i | 0 <= i < |rows| :: rows[i] in store
  }

  /** Rising, matching, stored, and between the cursors. */
  predicate Proper(rows: seq<Row>, store: seq<Row>, f: Row -> bool, lo: nat, hi: nat) {
    Rising(rows) && AllMatch(rows, f) && AllStored(rows, store) && Within(rows, lo, hi)
  }

  lemma {:induction false} ProperSlice(rows: seq<Row>, store: seq<Row>, f: Row -> bool, lo: nat, hi: nat, a: nat,
      b: nat)
    requires Proper(rows, store, f, lo, hi) && a <= b <= |rows|
    ensures Proper(rows[a..b], store, f, lo, hi)
    ensures a < b ==> Proper(rows[a..b], store, f, lo, rows[b - 1].id)
  {
  }

  lemma {:induction false} ProperMore(rows: seq<Row>, store: seq<Row>, f: Row -> bool, lo: nat, hi: nat, r: Row)
    requires Proper(rows, store, f, lo, hi) && hi < r.id
    ensures Proper(rows, store + [r], f, lo, r.id)
    ensures lo < r.id && f(r) ==> Proper(rows + [r], store + [r], f, lo, r.id)
  {
    assert forall i | 0 <= i < |rows| :: rows[i] in store ==> rows[i] in store + [r];
    assert (store + [r])[|store|] == r;
  }

  lemma {:induction false} CoversMore(store: seq<Row>, pruned: set<nat>, f: Row -> bool, lo: nat,
    hi: nat, rows: seq<Row>, r: Row, more: seq<Row>)
    requires Covers(store, pruned, f, lo, hi, rows) && hi < r.id && forall i | 0 <= i < |store| :: store[i].id <= hi
    requires more == (if r.id > lo && f(r) && r.id !in pruned then [r] else [])
    ensures Covers(store + [r], pruned, f, lo, r.id, rows + more)
  {
    var all := store + [r];
    forall i | 0 <= i < |all| && lo < all[i].id <= r.id && f(all[i])
      ensures all[i] in rows + more || all[i].id in pruned
    {
      if i < |store| {
        assert all[i] == store[i];
      } else if more != [] {
        assert (rows + more)[|rows|] == r;
      }
    }
  }

  /** Ids start at 1 and rise. */
  predicate Table(store: seq<Row>) {
    Rising(store) && forall i | 0 <= i < |store| :: 0 < store[i].id
  }

  lemma {:induction false} TableFront(store: seq<Row>)
    requires Table(store) && store != []
    ensures var front := store[..|store| - 1];
      && Table(front) && front + [store[|store| - 1]] == store && Newest(front) < store[|store| - 1].id
      && forall i | 0 <= i < |front| :: front[i].id <= Newest(front)
  {
    var n := |store| - 1;
    assert store[..n] + [store[n]] == store;
    if n > 0 {
      assert store[n - 1].id < store[n].id;
    }
  }

  lemma {:induction false} MatchingMeans(store: seq<Row>, pruned: set<nat>, f: Row -> bool, after: nat)
    requires Table(store)
    ensures var m := Matching(store, pruned, f, after);
      Proper(m, store, f, after, Newest(store)) && Covers(store, pruned, f, after, Newest(store), m)
  {
    if store != [] {
      hide Proper, Covers, Table;
      var n := |store| - 1;
      var front, r := store[..n], store[n];
      var m := Matching(front, pruned, f, after);
      TableFront(store);
      MatchingMeans(front, pruned, f, after);
      ProperMore(m, front, f, after, Newest(front), r);
      var more := if r.id > after && f(r) && r.id !in pruned then [r] else [];
      CoversMore(front, pruned, f, after, Newest(front), m, r, more);
      assert m + [] == m;
    }
  }

  lemma {:induction false} NewestIdBound(store: seq<Row>, pruned: set<nat>)
    requires Table(store)
    ensures NewestId(store, pruned) <= Newest(store)
  {
    if store != [] {
      NewestIdBound(store[..|store| - 1], pruned);
      TableFront(store);
    }
  }

  /** The first read gives the highest id that is not pruned, or 0. */
  lemma {:induction false} NewestIdMeans(store: seq<Row>, pruned: set<nat>)
    requires Table(store)
    ensures var n := NewestId(store, pruned);
      && (n != 0 ==> n !in pruned && exists i: nat :: i < |store| && store[i].id == n)
      && forall i: nat | i < |store| && store[i].id !in pruned :: store[i].id <= n
  {
    if store != [] {
      var last := |store| - 1;
      NewestIdMeans(store[..last], pruned);
      TableFront(store);
      if store[last].id in pruned && NewestId(store, pruned) != 0 {
        var i: nat :| i < last && store[..last][i].id == NewestId(store, pruned);
        assert store[i].id == NewestId(store, pruned);
      }
      forall i: nat | i < |store| && store[i].id !in pruned ensures store[i].id <= NewestId(store, pruned) {
        if i < last {
          assert store[..last][i] == store[i];
        }
      }
    }
  }

  /** The cursor that an answer to a query moves to. */
  function CursorOf(q: Query, last: nat, rows: seq<Row>): nat {
    NextCursor(q.after, q.limit, rows, last)
  }

  /** What is known of a finished answer, and stays known while lines are stored and pruned. */
  ghost predicate AnswerOk(store: seq<Row>, pruned: set<nat>, q: Query, last: nat, rows: seq<Row>) {
    var cursor := CursorOf(q, last, rows);
    && cursor <= Newest(store)
    && Proper(rows, store, By(q.filter), q.after, cursor)
    && (q.after > 0 ==> Covers(store, pruned, By(q.filter), q.after, cursor, rows))
  }

  /**
   Whatever was stored or pruned between the reads, the answer is complete up to the cursor that it moves to; and
   unless it is a full page, that cursor is past every line there was when the view began to read.
   */
  lemma {:induction false} SecondReadOk(store: seq<Row>, pruned: set<nat>, q: Query, last: nat)
    requires Table(store) && last <= Newest(store) && q.limit == Limit(q.after) && q.after <= Newest(store)
    ensures var rows := Rows(store, pruned, By(q.filter), q.after, q.limit);
      && AnswerOk(store, pruned, q, last, rows)
      && (CursorOf(q, last, rows) >= last || (q.after > 0 && |rows| == NEXT_LINES))
  {
    hide Matching, Proper, Covers, Table;
    var f := By(q.filter);
    var m := Matching(store, pruned, f, q.after);
    var n := Min(|m|, q.limit);
    MatchingMeans(store, pruned, f, q.after);
    var a, b := if q.after > 0 then 0 else |m| - n, if q.after > 0 then n else |m|;
    var rows := Rows(store, pruned, f, q.after, q.limit);
    assert rows == m[a..b];
    ProperSlice(m, store, f, q.after, Newest(store), a, b);
    var cursor := CursorOf(q, last, rows);
    if n > 0 {
      NewestWithin(m[a..b], store, f, q.after, Newest(store));
      ProperUpTo(rows, store, f, q.after, m[b - 1].id, cursor);
    } else {
      ProperNone(store, f, q.after, cursor);
    }
    if q.after > 0 {
      if n == q.limit {
        FirstOnesCover(store, pruned, f, q.after, m, n, Newest(store));
      } else {
        assert m[..n] == m;
        CoversLess(store, pruned, f, q.after, Newest(store), cursor, m);
      }
    }
  }

  lemma {:induction false} NewestWithin(rows: seq<Row>, store: seq<Row>, f: Row -> bool, lo: nat, hi: nat)
    requires Proper(rows, store, f, lo, hi) && rows != []
    ensures Newest(rows) == rows[|rows| - 1].id && lo < Newest(rows) <= hi
  {
  }

  lemma {:induction false} ProperNone(store: seq<Row>, f: Row -> bool, lo: nat, hi: nat)
    ensures Proper([], store, f, lo, hi)
  {
  }

  lemma {:induction false} ProperUpTo(rows: seq<Row>, store: seq<Row>, f: Row -> bool, lo: nat, hi: nat, higher: nat)
    requires Proper(rows, store, f, lo, hi) && hi <= higher
    ensures Proper(rows, store, f, lo, higher)
  {
  }

  lemma {:induction false} CoversLess(store: seq<Row>, pruned: set<nat>, f: Row -> bool, lo: nat, hi: nat, lower: nat,
      rows: seq<Row>)
    requires Covers(store, pruned, f, lo, hi, rows) && lower <= hi
    ensures Covers(store, pruned, f, lo, lower, rows)
  {
  }

  /** The first rows of all that match cover everything up to the last of them. */
  lemma {:induction false} FirstOnesCover(store: seq<Row>, pruned: set<nat>, f: Row -> bool, after: nat, m: seq<Row>,
      n: nat, hi: nat)
    requires 0 < n <= |m| && Proper(m, store, f, after, hi) && Covers(store, pruned, f, after, hi, m)
    ensures Covers(store, pruned, f, after, m[n - 1].id, m[..n])
  {
    forall i | 0 <= i < |store| && after < store[i].id <= m[n - 1].id && f(store[i])
      ensures store[i] in m[..n] || store[i].id in pruned
    {
      if store[i] in m {
        var k :| 0 <= k < |m| && m[k] == store[i];
        assert k < n;
        assert m[..n][k] == store[i];
      }
    }
  }

  // ----------------------------------------------------------------- what always holds

  lemma {:induction false} AnswerStaysOk(store: seq<Row>, more: seq<Row>, pruned: set<nat>, gone: set<nat>,
    q: Query, last: nat, rows: seq<Row>)
    requires AnswerOk(store, pruned, q, last, rows) && Table(store + more)
    ensures AnswerOk(store + more, pruned + gone, q, last, rows)
  {
    var cursor := CursorOf(q, last, rows);
    NewestGrows(store, more);
    ProperGrows(store, more, rows, By(q.filter), q.after, cursor);
    if q.after > 0 {
      CoversGrows(store, more, pruned, gone, By(q.filter), q.after, cursor, rows);
    }
    hide CursorOf, Proper, Covers;
  }

  lemma {:induction false} NewestGrows(store: seq<Row>, more: seq<Row>)
    requires Table(store + more)
    ensures Newest(store) <= Newest(store + more)
    ensures forall i | 0 <= i < |more| :: Newest(store) < more[i].id
  {
    forall i | 0 <= i < |more| ensures Newest(store) < more[i].id {
      assert (store + more)[|store| + i] == more[i];
      if store != [] {
        assert (store + more)[|store| - 1] == store[|store| - 1];
      }
    }
  }

  lemma {:induction false} ProperGrows(store: seq<Row>, more: seq<Row>, rows: seq<Row>, f: Row -> bool, lo: nat,
      hi: nat)
    requires Proper(rows, store, f, lo, hi)
    ensures Proper(rows, store + more, f, lo, hi)
  {
    forall i | 0 <= i < |rows| ensures rows[i] in store + more {
      assert rows[i] in store;
      var k :| 0 <= k < |store| && store[k] == rows[i];
      assert (store + more)[k] == rows[i];
    }
  }

  lemma {:induction false} CoversGrows(store: seq<Row>, more: seq<Row>, pruned: set<nat>, gone: set<nat>,
    f: Row -> bool, lo: nat, hi: nat, rows: seq<Row>)
    requires Covers(store, pruned, f, lo, hi, rows) && Table(store + more) && hi <= Newest(store)
    ensures Covers(store + more, pruned + gone, f, lo, hi, rows)
  {
    var all := store + more;
    NewestGrows(store, more);
    assert forall i | |store| <= i < |all| :: all[i] == more[i - |store|] && all[i].id > hi;
    assert forall i | 0 <= i < |store| :: all[i] == store[i];
  }

  /** The filter that the line with this id was asked for with, when the cursor passed it. */
  function FilterAt(parts: seq<Part>, otherwise: Filter, id: nat): Filter {
    if parts == [] then otherwise
    else if id > parts[|parts| - 1].lo then parts[|parts| - 1].filter
    else FilterAt(parts[..|parts| - 1], otherwise, id)
  }

  /** The lines that match what they were asked for with. */
  function AsAsked(parts: seq<Part>, otherwise: Filter): Row -> bool {
    (r: Row) => Matches(FilterAt(parts, otherwise, r.id), r)
  }

  /** The page: everything that was added after its first answer, and nothing missing, as it was asked for. */
  ghost predicate PageOk(store: seq<Row>, pruned: set<nat>, p: Page) {
    var f := AsAsked(p.parts, p.filter);
    && p.lastId <= Newest(store) && p.base <= p.lastId
    && p.shown == Trim(p.first + p.later)
    && (p.lastId == 0 ==> p.first == [] && p.later == [])
    && Proper(p.first, store, f, 0, p.base)
    && Proper(p.later, store, f, p.base, p.lastId)
    && Covers(store, pruned, f, p.base, p.lastId, p.later)
  }

  ghost predicate QueryOk(w: World, q: Query) {
    && q.limit == Limit(q.after) && q.after <= Newest(w.store) && q.generation <= w.page.generation
    && (q.generation == w.page.generation ==> q.after == w.page.lastId)
  }

  ghost predicate RequestOk(w: World) {
    w.request.Some? ==>
      match w.request.value
      case Asked(q) => QueryOk(w, q)
      case ReadLast(q, last) => QueryOk(w, q) && last <= Newest(w.store)
      case ReadRows(q, last, rows) => QueryOk(w, q) && AnswerOk(w.store, w.pruned, q, last, rows)
      case ReadTags(q, last, rows, _) => QueryOk(w, q) && AnswerOk(w.store, w.pruned, q, last, rows)
  }

  ghost predicate Ok(w: World) {
    Table(w.store) && PageOk(w.store, w.pruned, w.page) && RequestOk(w)
  }

  lemma {:induction false} TrimTwice(a: seq<Row>, b: seq<Row>)
    ensures Trim(Trim(a) + b) == Trim(a + b)
  {
    if |a| > MAX_LINES {
      var n := |a| - MAX_LINES;
      var t := Trim(a) + b;
      assert a + b == a[..n] + t;
      assert (a + b)[n + (|t| - MAX_LINES)..] == t[|t| - MAX_LINES..];
    }
  }

  lemma {:induction false} ProperJoin(a: seq<Row>, b: seq<Row>, store: seq<Row>, f: Row -> bool, lo: nat, mid: nat,
      hi: nat)
    requires Proper(a, store, f, lo, mid) && Proper(b, store, f, mid, hi) && lo <= mid <= hi
    ensures Proper(a + b, store, f, lo, hi)
  {
  }

  lemma {:induction false} CoversJoin(store: seq<Row>, pruned: set<nat>, f: Row -> bool, lo: nat,
    mid: nat, hi: nat, a: seq<Row>, b: seq<Row>)
    requires Covers(store, pruned, f, lo, mid, a) && Covers(store, pruned, f, mid, hi, b)
    ensures Covers(store, pruned, f, lo, hi, a + b)
  {
  }

  lemma {:induction false} CoversNothing(store: seq<Row>, pruned: set<nat>, f: Row -> bool, at: nat, rows: seq<Row>)
    ensures Covers(store, pruned, f, at, at, rows)
  {
  }

  lemma {:induction false} ProperSame(rows: seq<Row>, store: seq<Row>, f: Row -> bool, g: Row -> bool, lo: nat, hi: nat)
    requires Proper(rows, store, f, lo, hi)
    requires forall r: Row | lo < r.id <= hi :: f(r) == g(r)
    ensures Proper(rows, store, g, lo, hi)
  {
  }

  lemma {:induction false} CoversSame(store: seq<Row>, pruned: set<nat>, f: Row -> bool, g: Row -> bool, lo: nat,
    hi: nat, rows: seq<Row>)
    requires Covers(store, pruned, f, lo, hi, rows)
    requires forall r: Row | lo < r.id <= hi :: f(r) == g(r)
    ensures Covers(store, pruned, g, lo, hi, rows)
  {
  }

  /** One more part settles the ids above its cursor and leaves the others as they were. */
  lemma {:induction false} OnePartMore(parts: seq<Part>, part: Part, otherwise: Filter)
    ensures var f := AsAsked(parts + [part], otherwise);
      && (forall r: Row | r.id > part.lo :: f(r) == By(part.filter)(r))
      && (forall r: Row | r.id <= part.lo :: f(r) == AsAsked(parts, otherwise)(r))
  {
    assert (parts + [part])[..|parts|] == parts;
  }

  /** An answer of the page's own generation, taken over. */
  lemma {:induction false} LinesTakenOk(store: seq<Row>, pruned: set<nat>, p: Page, q: Query, last: nat, rows: seq<Row>)
    requires PageOk(store, pruned, p) && AnswerOk(store, pruned, q, last, rows)
    requires q.after == p.lastId && q.limit == Limit(q.after)
    ensures PageOk(store, pruned, LinesTaken(p, q, rows, last))
  {
    var t := LinesTaken(p, q, rows, last);
    var f, g := AsAsked(p.parts, p.filter), AsAsked(t.parts, p.filter);
    hide Proper, Covers, Trim, AsAsked, By;
    TrimTwice(p.first + p.later, rows);
    assert t.first + t.later == (p.first + p.later) + rows;
    if p.lastId == 0 {
      OnePartMore([], Part(q.filter, 0), p.filter);
      assert [] + [Part(q.filter, 0)] == t.parts;
      ProperSame(rows, store, By(q.filter), g, 0, t.lastId);
      ProperNone(store, g, t.base, t.lastId);
      CoversNothing(store, pruned, g, t.base, []);
      NoneBetween(rows, store, g, 0, t.lastId);
    } else {
      OnePartMore(p.parts, Part(q.filter, p.lastId), p.filter);
      ProperSame(p.first, store, f, g, 0, p.base);
      ProperSame(p.later, store, f, g, p.base, p.lastId);
      CoversSame(store, pruned, f, g, p.base, p.lastId, p.later);
      ProperSame(rows, store, By(q.filter), g, p.lastId, t.lastId);
      CoversSame(store, pruned, By(q.filter), g, p.lastId, t.lastId, rows);
      ProperJoin(p.later, rows, store, g, p.base, p.lastId, t.lastId);
      CoversJoin(store, pruned, g, p.base, p.lastId, t.lastId, p.later, rows);
    }
  }

  lemma {:induction false} NoneBetween(rows: seq<Row>, store: seq<Row>, f: Row -> bool, lo: nat, hi: nat)
    requires Proper(rows, store, f, lo, hi)
    ensures lo == hi ==> rows == []
  {
    if rows != [] {
      assert lo < rows[0].id <= hi;
    }
  }

  lemma {:induction false} StepKeepsOk(w: World, e: Event)
    requires Ok(w) && Enabled(w, e)
    ensures Ok(Step(w, e))
  {
    hide Proper, Covers, AnswerOk, Table, PageOk;
    match e
    case Store(row) =>
      assert w.pruned + {} == w.pruned;
      StoreKeepsOk(w, [row], {});
    case Prune(ids) =>
      assert w.store + [] == w.store;
      StoreKeepsOk(w, [], ids);
    case Type(_) => InputsAreFree(w.store, w.pruned, w.page, Typed(w.page, e.text));
    case SearchTimer => RestartOk(w.store, w.pruned, w.page.(searchDue := false));
    case Choose(level, tag) =>
      RestartOk(w.store, w.pruned, w.page.(inputs := w.page.inputs.(level := level, tag := tag)));
    case Ask => CursorKnown(w.store, w.pruned, w.page);
    case First => NewestIdBound(w.store, w.pruned);
    case Second => SecondReadOk(w.store, w.pruned, w.request.value.q, w.request.value.last);
    case Third =>
    case Deliver =>
      var r := w.request.value;
      if r.q.generation == w.page.generation {
        LinesTakenOk(w.store, w.pruned, w.page, r.q, r.last, r.rows);
        var p := LinesTaken(w.page, r.q, r.rows, r.last);
        InputsAreFree(w.store, w.pruned, p, TagsDrawn(p, r.tags));
      }
    case Fail =>
  }

  lemma {:induction false} InputsAreFree(store: seq<Row>, pruned: set<nat>, p: Page, t: Page)
    requires PageOk(store, pruned, p)
    requires t == p.(inputs := t.inputs, options := t.options, searchDue := t.searchDue)
    ensures PageOk(store, pruned, t)
  {
  }

  lemma {:induction false} CursorKnown(store: seq<Row>, pruned: set<nat>, p: Page)
    requires PageOk(store, pruned, p)
    ensures p.lastId <= Newest(store)
  {
  }

  lemma {:induction false} RestartOk(store: seq<Row>, pruned: set<nat>, p: Page)
    ensures PageOk(store, pruned, Restarted(p))
  {
  }

  lemma {:induction false} TableMore(store: seq<Row>, row: Row)
    requires Table(store) && row.id > Newest(store)
    ensures Table(store + [row])
  {
  }

  lemma {:induction false} StoreKeepsOk(w: World, more: seq<Row>, gone: set<nat>)
    requires Ok(w) && (more == [] || (|more| == 1 && more[0].id > Newest(w.store)))
    ensures Ok(w.(store := w.store + more, pruned := w.pruned + gone))
  {
    hide Proper, Covers, AnswerOk;
    if more != [] {
      TableMore(w.store, more[0]);
      assert more == [more[0]];
    } else {
      assert w.store + more == w.store;
    }
    var p := w.page;
    NewestGrows(w.store, more);
    var f := AsAsked(p.parts, p.filter);
    ProperGrows(w.store, more, p.first, f, 0, p.base);
    ProperGrows(w.store, more, p.later, f, p.base, p.lastId);
    CoversGrows(w.store, more, w.pruned, gone, f, p.base, p.lastId, p.later);
    hide Table;
    if w.request.Some? && (w.request.value.ReadRows? || w.request.value.ReadTags?) {
      var r := w.request.value;
      AnswerStaysOk(w.store, more, w.pruned, gone, r.q, r.last, r.rows);
    }
  }

  // ----------------------------------------------------------------- every run

  /** An event that is not enabled does nothing. */
  function Next(w: World, e: Event): World {
    if Enabled(w, e) then Step(w, e) else w
  }

  function At(level: Severity, h: seq<Event>, k: nat): World
    requires k <= |h|
  {
    if k == 0 then Start(level) else Next(At(level, h, k - 1), h[k - 1])
  }

  lemma {:induction false} AlwaysOk(level: Severity, h: seq<Event>, k: nat)
    requires k <= |h|
    ensures Ok(At(level, h, k))
  {
    hide Ok, Next;
    if k == 0 {
      StartOk(level);
    } else {
      AlwaysOk(level, h, k - 1);
      NextKeepsOk(At(level, h, k - 1), h[k - 1]);
    }
  }

  lemma {:induction false} StartOk(level: Severity)
    ensures Ok(Start(level))
  {
  }

  lemma {:induction false} NextKeepsOk(w: World, e: Event)
    requires Ok(w)
    ensures Ok(Next(w, e))
  {
    hide Ok, Step, Enabled;
    if Enabled(w, e) {
      StepKeepsOk(w, e);
    }
  }

  /** The last lines of all: 1500, or as many as there are. */
  predicate LastOnes(shown: seq<Row>, all: seq<Row>) {
    && |shown| == (if |all| < 1500 then |all| else 1500)
    && shown == all[|all| - |shown|..]
  }

  lemma {:induction false} TrimKeepsLast(all: seq<Row>, shown: seq<Row>)
    ensures shown == Trim(all) <==> LastOnes(shown, all)
  {
    assert all[0..] == all;
  }

  /**
   Once the page has had its first answer since a restart, the lines added after it are the stored lines between
   the two cursors that match what was asked for when the cursor passed them, each once and in the order of their
   ids; only lines pruned in the meantime may be missing. The page shows the newest 1500 of all that was added, in
   the order of their ids and the newest of them last.
   */
  lemma {:induction false} EachLineOnce(level: Severity, h: seq<Event>, k: nat, r: Row)
    requires k <= |h|
    ensures var w := At(level, h, k); var p := w.page;
      var asked := Matches(FilterAt(p.parts, p.filter, r.id), r);
      && Rising(p.later)
      && (r in p.later ==> r in w.store && asked && p.base < r.id <= p.lastId)
      && (r in w.store && asked && p.base < r.id <= p.lastId ==> r in p.later || r.id in w.pruned)
      && forall i, j | 0 <= i < |p.later| && 0 <= j < |p.later| && p.later[i] == p.later[j] :: i == j
    ensures var p := At(level, h, k).page;
      && LastOnes(p.shown, p.first + p.later) && Rising(p.shown)
      && (p.later != [] ==> p.shown != [] && p.shown[|p.shown| - 1] == p.later[|p.later| - 1])
  {
    hide At, AsAsked, Ok, Trim, Rising, Proper, Matches, FilterAt, LastOnes;
    AlwaysOk(level, h, k);
    var w := At(level, h, k);
    LaterOnes(w, r);
    ShownRises(w.page, w.store, AsAsked(w.page.parts, w.page.filter));
    if w.page.later != [] {
      LastIsNewest(w.page.shown, w.page.first, w.page.later);
    }
  }

  lemma {:induction false} LaterOnes(w: World, r: Row)
    requires Ok(w)
    ensures var p := w.page;
      var asked := Matches(FilterAt(p.parts, p.filter, r.id), r);
      && Rising(p.later)
      && (r in p.later ==> r in w.store && asked && p.base < r.id <= p.lastId)
      && (r in w.store && asked && p.base < r.id <= p.lastId ==> r in p.later || r.id in w.pruned)
      && forall i, j | 0 <= i < |p.later| && 0 <= j < |p.later| && p.later[i] == p.later[j] :: i == j
    ensures var p := w.page; var f := AsAsked(p.parts, p.filter);
      && Proper(p.first, w.store, f, 0, p.base) && Proper(p.later, w.store, f, p.base, p.lastId)
      && p.base <= p.lastId && p.shown == Trim(p.first + p.later)
  {
    hide Matches, Trim;
  }

  lemma {:induction false} ShownRises(p: Page, store: seq<Row>, f: Row -> bool)
    requires Proper(p.first, store, f, 0, p.base) && Proper(p.later, store, f, p.base, p.lastId) && p.base <= p.lastId
    requires p.shown == Trim(p.first + p.later)
    ensures LastOnes(p.shown, p.first + p.later) && Rising(p.shown)
  {
    var all := p.first + p.later;
    ProperJoin(p.first, p.later, store, f, 0, p.base, p.lastId);
    TrimKeepsLast(all, p.shown);
    LastOnesRise(p.shown, all);
    hide Trim, LastOnes, Rising;
  }

  lemma {:induction false} LastOnesRise(shown: seq<Row>, all: seq<Row>)
    requires LastOnes(shown, all) && Rising(all)
    ensures Rising(shown)
  {
  }

  lemma {:induction false} LastIsNewest(shown: seq<Row>, first: seq<Row>, later: seq<Row>)
    requires LastOnes(shown, first + later) && later != []
    ensures shown != [] && shown[|shown| - 1] == later[|later| - 1]
  {
  }

  /** What a reader expects: the lines between the cursors are those that match the filter of the restart. */
  ghost predicate AsFiltered(w: World) {
    var p := w.page;
    && (forall r | r in p.later :: Matches(p.filter, r))
    && forall r | r in w.store && p.base < r.id <= p.lastId && r.id !in w.pruned && Matches(p.filter, r) :: r in p.later
  }

  /** No line that the cursor passed tells the filter it was asked for with from the filter of the restart. */
  ghost predicate SameLines(w: World) {
    var p := w.page;
    forall r | r in w.store && p.base < r.id <= p.lastId && (r.id !in w.pruned || r in p.later) ::
      Matches(FilterAt(p.parts, p.filter, r.id), r) == Matches(p.filter, r)
  }

  lemma {:induction false} AsFilteredExactly(level: Severity, h: seq<Event>, k: nat)
    requires k <= |h|
    ensures var w := At(level, h, k); AsFiltered(w) <==> SameLines(w)
  {
    var w := At(level, h, k);
    forall r: Row ensures
      var asked := Matches(FilterAt(w.page.parts, w.page.filter, r.id), r);
      && (r in w.page.later ==> r in w.store && asked && w.page.base < r.id <= w.page.lastId)
      && (r in w.store && asked && w.page.base < r.id <= w.page.lastId ==> r in w.page.later || r.id in w.pruned)
    {
      EachLineOnce(level, h, k, r);
    }
    hide Matches, FilterAt, At, Next;
  }

  // ----------------------------------------------------------------- inputs and restarts

  /** Everything since the last restart was, and the next answer will be, asked for with this filter. */
  predicate Steady(w: World, f: Filter) {
    && w.page.inputs == f && w.page.filter == f
    && (forall i | 0 <= i < |w.page.parts| :: w.page.parts[i].filter == f)
    && (w.request.Some? && w.request.value.q.generation == w.page.generation ==> w.request.value.q.filter == f)
  }

  lemma {:induction false} StepKeepsSteady(w: World, e: Event, f: Filter)
    requires Ok(w) && Steady(w, f) && Next(w, e).page.inputs == f
    ensures Steady(Next(w, e), f)
  {
    hide AnswerOk, Table, PageOk;
  }

  predicate RestartedAt(level: Severity, h: seq<Event>, j: nat)
    requires j <= |h|
  {
    j == 0 || (Enabled(At(level, h, j - 1), h[j - 1]) && (h[j - 1].SearchTimer? || h[j - 1].Choose?))
  }

  lemma {:induction false} RestartIsSteady(level: Severity, h: seq<Event>, j: nat)
    requires j <= |h| && RestartedAt(level, h, j)
    ensures Steady(At(level, h, j), At(level, h, j).page.inputs)
  {
    if j > 0 {
      AlwaysOk(level, h, j - 1);
      hide AnswerOk;
    }
  }

  lemma {:induction false} StaysSteady(level: Severity, h: seq<Event>, j: nat, k: nat)
    requires j <= k <= |h| && RestartedAt(level, h, j)
    requires forall i | j <= i <= k :: At(level, h, i).page.inputs == At(level, h, j).page.inputs
    ensures Steady(At(level, h, k), At(level, h, j).page.inputs)
  {
    if j == k {
      RestartIsSteady(level, h, j);
    } else {
      StaysSteady(level, h, j, k - 1);
      AlwaysOk(level, h, k - 1);
      assert At(level, h, k).page.inputs == At(level, h, j).page.inputs;
      hide Ok, Steady, Next, RestartedAt;
      StepKeepsSteady(At(level, h, k - 1), h[k - 1], At(level, h, j).page.inputs);
    }
  }

  lemma {:induction false} OneFilter(parts: seq<Part>, f: Filter, id: nat)
    requires forall i | 0 <= i < |parts| :: parts[i].filter == f
    ensures FilterAt(parts, f, id) == f
  {
    if parts != [] {
      OneFilter(parts[..|parts| - 1], f, id);
    }
  }

  /** While the inputs hold what they held at the last restart, the page shows what a reader expects. */
  lemma {:induction false} UnchangedInputs(level: Severity, h: seq<Event>, j: nat, k: nat)
    requires j <= k <= |h| && RestartedAt(level, h, j)
    requires forall i | j <= i <= k :: At(level, h, i).page.inputs == At(level, h, j).page.inputs
    ensures AsFiltered(At(level, h, k))
  {
    StaysSteady(level, h, j, k);
    AsFilteredExactly(level, h, k);
    var w := At(level, h, k);
    forall r: Row {
      OneFilter(w.page.parts, w.page.filter, r.id);
    }
    hide Matches, FilterAt, At, AsFiltered;
  }

  /** One undisturbed poll. */
  const POLL: seq<Event> := [Ask, First, Second, Third, Deliver]

  function Polled(w: World): World {
    var q := Asking(w.page);
    var rows := Rows(w.store, w.pruned, By(q.filter), q.after, q.limit);
    var body := Body(rows, NewestId(w.store, w.pruned), KnownTags(w.store, w.pruned, NEWEST_TAGS));
    w.(page := Answered(w.page, q, body))
  }

  lemma {:induction false} AtPrefix(level: Severity, h: seq<Event>, more: seq<Event>, k: nat)
    requires k <= |h|
    ensures At(level, h + more, k) == At(level, h, k)
  {
    if k > 0 {
      AtPrefix(level, h, more, k - 1);
    }
  }

  lemma {:induction false} OneMore(level: Severity, h: seq<Event>, e: Event)
    ensures At(level, h + [e], |h| + 1) == Next(At(level, h, |h|), e)
  {
    AtPrefix(level, h, [e], |h|);
  }

  lemma {:induction false} PollSteps(w: World)
    requires w.request.None?
    ensures var q := Asking(w.page);
      var last := NewestId(w.store, w.pruned);
      var rows := Rows(w.store, w.pruned, By(q.filter), q.after, q.limit);
      var w1, w2 := w.(request := Some(Asked(q))), w.(request := Some(ReadLast(q, last)));
      var w3 := w.(request := Some(ReadRows(q, last, rows)));
      var w4 := w.(request := Some(ReadTags(q, last, rows, KnownTags(w.store, w.pruned, NEWEST_TAGS))));
      && Next(w, Ask) == w1 && Next(w1, First) == w2 && Next(w2, Second) == w3 && Next(w3, Third) == w4
      && Next(w4, Deliver) == Polled(w)
  {
    hide Rows, KnownTags, NewestId, Answered, By, Asking;
  }

  lemma {:induction false} PollOnce(level: Severity, h: seq<Event>)
    requires At(level, h, |h|).request.None?
    ensures At(level, h + POLL, |h| + 5) == Polled(At(level, h, |h|))
  {
    var w := At(level, h, |h|);
    var g := h + POLL;
    AtPrefix(level, h, POLL, |h|);
    assert g[|h|] == Ask && g[|h| + 1] == First && g[|h| + 2] == Second && g[|h| + 3] == Third && g[|h| + 4] == Deliver;
    PollSteps(w);
    hide Next, Polled, Rows, KnownTags, NewestId, By, Asking;
    assert At(level, g, |h| + 2) == Next(Next(w, Ask), First);
    assert At(level, g, |h| + 4) == Next(Next(At(level, g, |h| + 2), Second), Third);
  }

  lemma {:induction false} MatchingNew(store: seq<Row>, pruned: set<nat>, f: Row -> bool, r: Row)
    requires Table(store) && r.id > Newest(store) && r.id !in pruned
    ensures Matching(store + [r], pruned, f, Newest(store)) == if f(r) then [r] else []
  {
    var top := Newest(store);
    MatchingMeans(store, pruned, f, top);
    NoneBetween(Matching(store, pruned, f, top), store, f, top, top);
    assert (store + [r])[..|store|] == store;
  }

  /** A poll that is up to date, after one new line. */
  lemma {:induction false} PollNew(w: World, r: Row)
    requires Ok(w) && w.request.None? && 0 < w.page.lastId == Newest(w.store)
    requires r.id > Newest(w.store) && r.id !in w.pruned
    ensures var t := Polled(w.(store := w.store + [r]));
      && t.page.lastId == r.id && t.page.filter == w.page.filter && t.page.base == w.page.base
      && t.store == w.store + [r] && t.pruned == w.pruned
      && t.page.later == w.page.later + if Matches(w.page.inputs, r) then [r] else []
  {
    hide Rows, NewestId, Ok, KnownTags, Matches, LinesTaken, Table;
    var more := if Matches(w.page.inputs, r) then [r] else [];
    OkTable(w);
    RowsNew(w.store, w.pruned, w.page.inputs, r);
    OneTaken(w.page, more, r.id);
  }

  lemma {:induction false} OkTable(w: World)
    requires Ok(w)
    ensures Table(w.store)
  {
  }

  lemma {:induction false} RowsNew(store: seq<Row>, pruned: set<nat>, f: Filter, r: Row)
    requires Table(store) && store != [] && r.id > Newest(store) > 0 && r.id !in pruned
    ensures Rows(store + [r], pruned, By(f), Newest(store), NEXT_LINES) == if Matches(f, r) then [r] else []
    ensures NewestId(store + [r], pruned) == r.id
  {
    MatchingNew(store, pruned, By(f), r);
    hide Matching, Table, Matches;
    assert (store + [r])[|store|] == r;
  }

  lemma {:induction false} OneTaken(p: Page, lines: seq<Row>, id: nat)
    requires 0 < p.lastId < id && |lines| <= 1 && (lines != [] ==> lines[0].id == id)
    ensures var t := LinesTaken(p, Asking(p), lines, id);
      t.lastId == id && t.filter == p.filter && t.base == p.base && t.later == p.later + lines
      && t.generation == p.generation
  {
    hide Trim;
  }

  lemma {:induction false} NewLineShows(w: World, r: Row)
    requires Ok(w) && w.request.None? && 0 < w.page.lastId == Newest(w.store)
    requires r.id > Newest(w.store) && r.id !in w.pruned
    requires Matches(w.page.inputs, r) != Matches(w.page.filter, r)
    ensures !AsFiltered(Polled(w.(store := w.store + [r])))
  {
    PollNew(w, r);
    hide Polled, Matches, Ok, Table;
    NotYet(w, r);
    assert (w.store + [r])[|w.store|] == r;
    assert (w.page.later + [r])[|w.page.later|] == r;
  }

  lemma {:induction false} NotYet(w: World, r: Row)
    requires Ok(w) && r.id > w.page.lastId
    ensures r !in w.page.later && w.page.base <= w.page.lastId
  {
  }

  /**
   From any state that is up to date and whose inputs no longer mean what they meant at the restart, a single line
   that tells the two apart is enough: the next poll shows a line that it should not, or passes one over for good.
   */
  lemma {:induction false} OneLineAway(level: Severity, h: seq<Event>, r: Row)
    requires var w := At(level, h, |h|);
      && w.request.None? && 0 < w.page.lastId == Newest(w.store)
      && r.id > Newest(w.store) && r.id !in w.pruned
      && Matches(w.page.inputs, r) != Matches(w.page.filter, r)
    ensures !AsFiltered(At(level, h + [Store(r)] + POLL, |h| + 6))
  {
    var w := At(level, h, |h|);
    AlwaysOk(level, h, |h|);
    hide At, Next, Polled, Matches, Ok, AsFiltered;
    OneMore(level, h, Store(r));
    StoredNext(w, r);
    PollOnce(level, h + [Store(r)]);
    NewLineShows(w, r);
  }

  lemma {:induction false} StoredNext(w: World, r: Row)
    requires r.id > Newest(w.store)
    ensures Next(w, Store(r)) == w.(store := w.store + [r])
  {
  }

  /** A chosen tag is one of the options. */
  lemma {:induction false} TagIsOption(level: Severity, h: seq<Event>, k: nat)
    requires k <= |h|
    ensures var p := At(level, h, k).page; p.inputs.tag == "" || p.inputs.tag in p.options
  {
    if k > 0 {
      TagIsOption(level, h, k - 1);
      hide Rows, NewestId, KnownTags, Matches, NextCursor, Trim;
    }
  }

  /**
   When the chosen tag has left the newest 2000 lines, the next poll sets the select back to all tags. That
   restarts nothing: the lines and the filter they were collected with stay.
   */
  lemma {:induction false} TagIsDropped(level: Severity, h: seq<Event>)
    requires var w := At(level, h, |h|);
      && w.request.None? && w.page.inputs.tag != ""
      && w.page.inputs.tag !in KnownTags(w.store, w.pruned, 2000)
    ensures var p, t := At(level, h, |h|).page, At(level, h + POLL, |h| + 5).page;
      t.inputs == p.inputs.(tag := "") && t.filter == p.filter && t.generation == p.generation
      && t.searchDue == p.searchDue
  {
    PollOnce(level, h);
    TagIsOption(level, h, |h|);
    hide At, Rows, NewestId, KnownTags, NextCursor, Trim;
  }

  /** A chosen tag that is still among the newest 2000 lines stays chosen, and the select offers the tags of those. */
  lemma {:induction false} TagIsKept(level: Severity, h: seq<Event>)
    requires var w := At(level, h, |h|); w.request.None?
    ensures var w, p := At(level, h, |h|), At(level, h + POLL, |h| + 5).page;
      && (p.inputs == w.page.inputs <==>
            w.page.inputs.tag == "" || w.page.inputs.tag in KnownTags(w.store, w.pruned, 2000))
      && p.options == KnownTags(w.store, w.pruned, 2000)
  {
    PollOnce(level, h);
    TagIsOption(level, h, |h|);
    hide At, Rows, NewestId, KnownTags, NextCursor, Trim;
  }

  /** And it stays so until someone types or chooses: no timer is running that would restart the page. */
  lemma {:induction false} NothingRestarts(level: Severity, h: seq<Event>, j: nat, k: nat)
    requires j <= k <= |h|
    requires var p := At(level, h, j).page; !p.searchDue && p.inputs.tag == ""
    requires forall i | j <= i < k :: !h[i].Type? && !h[i].Choose?
    ensures var p, t := At(level, h, j).page, At(level, h, k).page;
      t.inputs == p.inputs && t.filter == p.filter && t.generation == p.generation && !t.searchDue
  {
    if j < k {
      NothingRestarts(level, h, j, k - 1);
      hide Rows, NewestId, KnownTags, Matches, NextCursor, Trim;
    }
  }

  const LINE_A := Row(1, 'E', "A", "x")
  const LINE_B := Row(2, 'E', "B", "y")

  lemma {:induction false} OneMatch(pruned: set<nat>, f: Row -> bool)
    ensures Matching([LINE_A], pruned, f, 0) == if f(LINE_A) && 1 !in pruned then [LINE_A] else []
    ensures Matching([LINE_A], pruned, f, 1) == []
  {
    assert [LINE_A][..0] == [];
  }

  lemma {:induction false} OneTag(pruned: set<nat>)
    ensures KnownTags([LINE_A], pruned, NEWEST_TAGS) == if 1 in pruned then {} else {"A"}
  {
    assert [LINE_A][..0] == [];
    assert KnownTags([], pruned, NEWEST_TAGS) == {} == KnownTags([], pruned, NEWEST_TAGS - 1);
  }

  lemma {:induction false} OneNewest(pruned: set<nat>)
    ensures NewestId([LINE_A], pruned) == if 1 in pruned then 0 else 1
  {
    assert [LINE_A][..0] == [];
  }

  lemma {:induction false} OneLine(pruned: set<nat>, f: Row -> bool, limit: nat)
    requires limit > 0
    ensures Matching([LINE_A], pruned, f, 0) == if f(LINE_A) && 1 !in pruned then [LINE_A] else []
    ensures Rows([LINE_A], pruned, f, 0, limit) == Matching([LINE_A], pruned, f, 0)
    ensures Rows([LINE_A], pruned, f, 1, limit) == []
    ensures NewestId([LINE_A], pruned) == if 1 in pruned then 0 else 1
    ensures KnownTags([LINE_A], pruned, NEWEST_TAGS) == if 1 in pruned then {} else {"A"}
  {
    OneMatch(pruned, f);
    OneTag(pruned);
    OneNewest(pruned);
    hide Matching, KnownTags, NewestId;
    var m := Matching([LINE_A], pruned, f, 0);
    assert m[|m| - |m|..] == m;
  }

  lemma {:induction false} WhatMatches()
    ensures Matches(Filter(4, "", ""), LINE_A) && Matches(Filter(4, "", ""), LINE_B)
    ensures Matches(Filter(4, "A", ""), LINE_A) && !Matches(Filter(4, "A", ""), LINE_B)
    ensures !Matches(Filter(4, "", "x"), LINE_B)
  {
    assert SEVERITIES[..5][0] == 'E';
    assert Lower("y") == "y" && Lower("B") == "b" && Lower("x") == "x";
    assert !Contains("", "x");
    assert !Contains("y", "x") && !Contains("b", "x");
  }

  const FIRST_PAGE := Page([LINE_A], 1, 0, Filter(4, "", ""), {"A"}, false,
                           Filter(4, "", ""), [LINE_A], 1, [], [Part(Filter(4, "", ""), 0)])

  lemma {:induction false} FirstPage()
    ensures Polled(World([LINE_A], {}, Fresh(Filter(4, "", "")), None)) == World([LINE_A], {}, FIRST_PAGE, None)
  {
    OneLine({}, By(Filter(4, "", "")), FIRST_LINES);
    WhatMatches();
    assert [] + [LINE_A] == [LINE_A];
    hide Rows, NewestId, KnownTags, Matching, Matches;
  }

  /** The page after its first line, with all levels and tags. */
  lemma {:induction false} FirstLine() returns (h: seq<Event>)
    ensures |h| == 6 && h == [Store(LINE_A)] + POLL
    ensures At(4, h, 6) == World([LINE_A], {}, FIRST_PAGE, None)
  {
    h := [Store(LINE_A)];
    OneMore(4, [], Store(LINE_A));
    assert [] + h == h;
    assert At(4, h, 1) == World([LINE_A], {}, Fresh(Filter(4, "", "")), None) by {
      assert [] + [LINE_A] == [LINE_A];
    }
    hide At, Polled;
    PollOnce(4, h);
    FirstPage();
    h := h + POLL;
  }

  /** Text typed into the search field is asked for before the restart that it causes: 13 events, no timer yet. */
  lemma {:induction false} AskedTooEarly() returns (h: seq<Event>)
    ensures |h| == 13 && h[6] == Type("x") && SearchTimer !in h && !AsFiltered(At(4, h, 13))
  {
    var h6 := FirstLine();
    OneMore(4, h6, Type("x"));
    var h7 := h6 + [Type("x")];
    WhatMatches();
    hide At, Matches;
    OneLineAway(4, h7, LINE_B);
    h := h7 + [Store(LINE_B)] + POLL;
  }

  const TAGGED_PAGE := Page([LINE_A], 1, 1, Filter(4, "A", ""), {"A"}, false,
                            Filter(4, "A", ""), [LINE_A], 1, [], [Part(Filter(4, "A", ""), 0)])

  lemma {:induction false} TaggedPage()
    ensures Polled(World([LINE_A], {}, Chosen(FIRST_PAGE, 4, "A"), None)) == World([LINE_A], {}, TAGGED_PAGE, None)
  {
    OneLine({}, By(Filter(4, "A", "")), FIRST_LINES);
    WhatMatches();
    assert [] + [LINE_A] == [LINE_A];
    hide Rows, NewestId, KnownTags, Matching, Matches;
  }

  lemma {:induction false} NothingNew()
    ensures var t := Polled(World([LINE_A], {1}, TAGGED_PAGE, None));
      && t.page.lastId == 1 && t.page.filter == Filter(4, "A", "") && t.page.inputs == Filter(4, "", "")
      && t.store == [LINE_A] && t.pruned == {1} && t.request.None? && !t.page.searchDue
  {
    OneLine({1}, By(Filter(4, "A", "")), NEXT_LINES);
    hide Rows, NewestId, KnownTags, Matching, Matches;
  }

  /** The page with tag A chosen, after the line with that tag is pruned and one more poll. */
  lemma {:induction false} TagWentAway() returns (h: seq<Event>)
    ensures h == [Store(LINE_A)] + POLL + [Choose(4, "A")] + POLL + [Prune({1})] + POLL
    ensures At(4, h, 18) == Polled(World([LINE_A], {1}, TAGGED_PAGE, None))
  {
    h := FirstLine();
    OneMore(4, h, Choose(4, "A"));
    h := h + [Choose(4, "A")];
    assert At(4, h, 7) == World([LINE_A], {}, Chosen(FIRST_PAGE, 4, "A"), None);
    hide At, Polled;
    PollOnce(4, h);
    TaggedPage();
    h := h + POLL;
    OneMore(4, h, Prune({1}));
    h := h + [Prune({1})];
    assert {} + {1} == {1};
    PollOnce(4, h);
    h := h + POLL;
  }

  /** A tag that is set back leaves lines of other tags on the page, and no restart is to come. */
  lemma {:induction false} OtherTagShown() returns (h: seq<Event>)
    ensures |h| == 24 && h[6] == Choose(4, "A") && !AsFiltered(At(4, h, 24)) && !At(4, h, 24).page.searchDue
    ensures forall i | 0 <= i < 24 && i != 6 :: !h[i].Choose? && !h[i].Type?
  {
    var g := TagWentAway();
    h := g + [Store(LINE_B)] + POLL;
    NothingNew();
    WhatMatches();
    hide At, Polled, Matches, AsFiltered;
    OneLineAway(4, g, LINE_B);
    AtPrefix(4, g, [Store(LINE_B)] + POLL, 18);
    assert g + ([Store(LINE_B)] + POLL) == h;
    NothingRestarts(4, h, 18, 24);
  }

  /** The first answer holds the newest lines that match: an older one is left out only when the page is full. */
  lemma {:induction false} FirstAnswerIsNewest(store: seq<Row>, pruned: set<nat>, f: Row -> bool, limit: nat, r: Row)
    requires Table(store) && limit > 0 && r in store && f(r) && r.id !in pruned
    ensures var rows := Rows(store, pruned, f, 0, limit);
      r in rows || (|rows| == limit && r.id < rows[0].id)
  {
    var m := Matching(store, pruned, f, 0);
    MatchingMeans(store, pruned, f, 0);
    TopOfTable(store);
    var i :| 0 <= i < |store| && store[i] == r;
    assert store[i] in m;
    var k :| 0 <= k < |m| && m[k] == r;
    var n := Min(|m|, limit);
    if k >= |m| - n {
      assert m[|m| - n..][k - (|m| - n)] == r;
    }
  }

  lemma {:induction false} TopOfTable(store: seq<Row>)
    requires Table(store)
    ensures forall i | 0 <= i < |store| :: 0 < store[i].id <= Newest(store)
  {
  }

  // ----------------------------------------------------------------- the tab

  /** What only the statements about a page speak of. */
  datatype Since = Since(filter: Filter, first: seq<Row>, base: nat, later: seq<Row>, parts: seq<Part>)

  class Tab {
    var lines: seq<Row>
    var lastId: nat
    var generation: nat
    var busy: bool
    var level: Severity
    var tag: Text
    var text: Text
    var options: set<Text>
    var searchDue: bool
    ghost var since: Since

    ghost function Value(): Page
      reads this
    {
      Page(lines, lastId, generation, Filter(level, tag, text), options, searchDue,
           since.filter, since.first, since.base, since.later, since.parts)
    }

    constructor (l: Severity)
      ensures Value() == Fresh(Filter(l, "", "")) && !busy
    {
      lines, lastId, generation, busy := [], 0, 0, false;
      level, tag, text, options, searchDue := l, "", "", {}, false;
      since := Since(Filter(l, "", ""), [], 0, [], []);
    }

    method Restart()
      modifies this`generation, this`lines, this`lastId, this`since
      ensures Value() == Restarted(old(Value())) && busy == old(busy)
      ensures lines == [] && lastId == 0 && generation == old(generation) + 1
    {
      generation := generation + 1;
      lines, lastId := [], 0;
      since := Since(Filter(level, tag, text), [], 0, [], []);
    }

    method OnInput(t: Text)
      modifies this
      ensures Value() == Typed(old(Value()), t) && busy == old(busy)
      ensures text == t && searchDue && lines == old(lines) && generation == old(generation)
    {
      text, searchDue := t, true;
    }

    method OnSearchTimer()
      modifies this
      ensures Value() == Restarted(old(Value()).(searchDue := false)) && busy == old(busy)
      ensures lines == [] && lastId == 0 && !searchDue && generation == old(generation) + 1
    {
      searchDue := false;
      Restart();
    }

    method OnChange(l: Severity, t: Text)
      modifies this
      ensures Value() == Chosen(old(Value()), l, t) && busy == old(busy)
      ensures level == l && tag == t && lines == [] && lastId == 0 && generation == old(generation) + 1
    {
      level, tag := l, t;
      Restart();
    }

    /** The request to send, unless the tab is closed or one is on its way. */
    method BeginPoll(open: bool) returns (q: Option<Query>)
      modifies this`busy
      ensures q.Some? <==> open && !old(busy)
      ensures q.Some? ==> busy && q.value == Asking(Value())
      ensures q.Some? ==> q.value.after == lastId && q.value.limit == if lastId == 0 then 300 else 1000
      ensures q.None? ==> busy == old(busy)
    {
      if !open || busy {
        return None;
      }
      busy := true;
      var limit := if lastId > 0 then NEXT_LINES else FIRST_LINES;
      q := Some(Query(generation, Filter(level, tag, text), lastId, limit));
    }

    method DrawTags(known: set<Text>)
      modifies this`options, this`tag
      ensures Value() == TagsDrawn(old(Value()), known)
      ensures options == known && (known != old(options) ==> tag == if old(tag) in known then old(tag) else "")
    {
      if known != options {
        options := known;
        if tag !in known {
          tag := "";
        }
      }
    }

    method TakeLines(asked: Query, added: seq<Row>, last: nat)
      modifies this`lines, this`lastId, this`since
      ensures busy == old(busy) && Value() == LinesTaken(old(Value()), asked, added, last)
      ensures LastOnes(lines, old(lines) + added) && old(lastId) <= lastId
    {
      var isFirst := lastId == 0;
      ghost var part := Part(asked.filter, lastId);
      lines := lines + added;
      if |lines| > MAX_LINES {
        lines := lines[|lines| - MAX_LINES..];
      }
      TrimKeepsLast(old(lines) + added, lines);
      var newest := if added != [] then added[|added| - 1].id else 0;
      lastId := Max(lastId, if |added| == asked.limit && !isFirst then newest else Max(last, newest));
      since := if isFirst then since.(first := added, base := lastId, parts := [part])
      else since.(later := since.later + added, parts := since.parts + [part]);
    }

    /** The answer to what was asked, or none when the request failed. */
    method EndPoll(asked: Query, body: Option<Body>)
      modifies this
      ensures !busy && Value() == if body.Some? then Answered(old(Value()), asked, body.value) else old(Value())
      ensures body.None? || asked.generation != old(generation) ==> Value() == old(Value())
      ensures body.Some? && asked.generation == old(generation) ==>
        LastOnes(lines, old(lines) + body.value.lines) && old(lastId) <= lastId && options == body.value.tags
    {
      if body.Some? && asked.generation == generation {
        hide LinesTaken, TagsDrawn;
        TakeLines(asked, body.value.lines, body.value.lastId);
        DrawTags(body.value.tags);
      }
      busy := false;
    }
  }
}
