/** The episode cache store: a map from episode id to a cache entry, the throttled fetch that
    fills an entry from the drama it belongs to, `clearCache`, and the character filter behind
    `del`. The clock, the drama API and `parseInt` are parameters. */
module EpisodeStore {
  import opened Wrappers
  import Strings

  /** A JavaScript `string | number` id; `===` is equality of the same variant. */
  datatype Key = Num(n: int) | Str(s: string)

  datatype Character = Character(id: Key, name: string)

  /** The fields of an episode the store reads; a missing field is None. */
  datatype Episode = Episode(id: Key, number: Option<int>, drama: Option<Key>, characters: Option<seq<Character>>)

  /** What `dramaAPI.get` gives: the drama's episodes (None when the field is missing). */
  datatype Drama = Drama(episodes: Option<seq<Episode>>)

  /** `dramaAPI.get` resolving with a drama, or rejecting with an error whose `message` is the
      string ("" when it is empty or missing). */
  datatype Reply = Got(drama: Drama) | Threw(message: string)

  /** `data` is None while it is still the placeholder `{}`. */
  datatype Entry = Entry(data: Option<Episode>, loading: bool, error: Option<string>, lastFetch: int)

  type Caches = map<string, Entry>

  /** The entry `getCacheByEpisodeId` creates for an id it has not seen. */
  const Blank := Entry(None, false, None, 0)

  /** A non-forced fetch within this many milliseconds of the last success does nothing. */
  const ThrottleMs := 3000

  const NotFoundMessage := "未找到章节数据"
  const LoadFailedMessage := "加载章节数据失败"

  // ---------------------------------------------------------------------------------------
  // Reading an episode id

  /** `episodeId.split('-')[0]`: the drama the episode belongs to. */
  function DramaId(id: string): (r: string)
    ensures '-' !in id ==> r == id
    ensures '-' in id ==> r == id[..Strings.IndexOf(id, '-')]
    ensures '-' !in r
  {
    Strings.Split(id, '-')[0]
  }

  /** How the episode is picked out of the drama. */
  datatype Want = ByNumber(number: Option<int>) | ById(id: string)

  /** With a second segment the episode is looked up by `parseInt` of it (None is NaN): the
      text after the first `-` up to the next one. Otherwise it is looked up by the whole id. */
  function WantOf(id: string, parse: string -> Option<int>): (w: Want)
    ensures '-' in id ==> w == ByNumber(parse(DramaId(id[Strings.IndexOf(id, '-') + 1..])))
    ensures '-' !in id ==> w == ById(id)
  {
    var parts := Strings.Split(id, '-');
    if |parts| > 1 then
      SecondSegment(id);
      ByNumber(parse(parts[1]))
    else ById(id)
  }

  /** The second segment, when there is one, is what follows the first `-` up to the next. */
  lemma SecondSegment(id: string)
    requires '-' in id
    ensures var k := Strings.IndexOf(id, '-');
      |Strings.Split(id, '-')| > 1 && Strings.Split(id, '-')[1] == Strings.Split(id[k + 1..], '-')[0]
  {
  }

  /** `e.episode_number === n` or `e.id === episodeId`. NaN equals nothing. */
  predicate Matches(e: Episode, w: Want) {
    match w
    case ByNumber(n) => n.Some? && e.number == Some(n.value)
    case ById(s) => e.id == Str(s)
  }

  /** `episodes.find(...)`: the first matching episode. */
  function Find(eps: seq<Episode>, w: Want): (r: Option<Episode>)
    ensures r.None? <==> forall k :: 0 <= k < |eps| ==> !Matches(eps[k], w)
    ensures r.Some? ==> exists k :: (0 <= k < |eps| && eps[k] == r.value && Matches(eps[k], w)
      && forall j :: 0 <= j < k ==> !Matches(eps[j], w))
    decreases |eps|
  {
    if |eps| == 0 then None
    else if Matches(eps[0], w) then Some(eps[0])
    else
      var r := Find(eps[1..], w);
      assert forall k :: 1 <= k < |eps| ==> eps[k] == eps[1..][k - 1];
      if r.Some? then
        var k :| 0 <= k < |eps| - 1 && eps[1..][k] == r.value && Matches(eps[1..][k], w)
          && forall j :: 0 <= j < k ==> !Matches(eps[1..][j], w);
        assert eps[k + 1] == r.value;
        r
      else r
  }

  /** The first match is the one `find` returns: any matching episode ahead of every other
      match is the result. */
  lemma {:induction false} FindFirst(eps: seq<Episode>, w: Want, k: nat)
    requires k < |eps| && Matches(eps[k], w)
    requires forall j :: 0 <= j < k ==> !Matches(eps[j], w)
    ensures Find(eps, w) == Some(eps[k])
    decreases k
  {
    if k > 0 {
      assert forall j :: 0 <= j < k - 1 ==> eps[1..][j] == eps[j + 1];
      FindFirst(eps[1..], w, k - 1);
    }
  }

  // ---------------------------------------------------------------------------------------
  // fetchEpisode

  /** What the request settles to. */
  datatype Lookup = Found(episode: Episode) | NotFound | Failed(message: string)

  /** Some episode of the (possibly missing) list matches. */
  predicate HasMatch(eps: Option<seq<Episode>>, w: Want) {
    eps.Some? && exists k :: 0 <= k < |eps.value| && Matches(eps.value[k], w)
  }

  /** `e` is the first episode of `eps` that matches. */
  predicate FirstMatch(eps: seq<Episode>, w: Want, e: Episode) {
    exists k :: 0 <= k < |eps| && eps[k] == e && Matches(eps[k], w)
      && forall j :: 0 <= j < k ==> !Matches(eps[j], w)
  }

  /** Ask for the drama the id names and look the episode up in it: a thrown request fails
      with its message; otherwise the first matching episode is found, and a drama without
      episodes or without a match gives "not found". */
  function Resolve(id: string, parse: string -> Option<int>, api: string -> Reply): (r: Lookup)
    ensures api(DramaId(id)).Threw? <==> r.Failed?
    ensures r.Failed? ==> r.message == api(DramaId(id)).message
    ensures r.Found? <==> api(DramaId(id)).Got? && HasMatch(api(DramaId(id)).drama.episodes, WantOf(id, parse))
    ensures r.NotFound? <==> api(DramaId(id)).Got? && !HasMatch(api(DramaId(id)).drama.episodes, WantOf(id, parse))
    ensures r.Found? ==> FirstMatch(api(DramaId(id)).drama.episodes.value, WantOf(id, parse), r.episode)
  {
    match api(DramaId(id))
    case Threw(m) => Failed(m)
    case Got(d) =>
      if d.episodes.None? then NotFound
      else
        var e := Find(d.episodes.value, WantOf(id, parse));
        if e.Some? then Found(e.value) else NotFound
  }

  /** `!force && cache.lastFetch && now - cache.lastFetch < 3000` */
  predicate Throttled(e: Entry, force: bool, now: int) {
    !force && e.lastFetch != 0 && now - e.lastFetch < ThrottleMs
  }

  /** The synchronous start of a fetch that goes ahead. */
  function Begin(e: Entry): (r: Entry)
    ensures r.loading && r.error.None? && r.data == e.data && r.lastFetch == e.lastFetch
  {
    e.(loading := true, error := None)
  }

  /** The end of the fetch begun at `now`, when the request has settled. */
  function Settle(e: Entry, l: Lookup, now: int): (r: Entry)
    ensures !r.loading
    ensures r.data == (if l.Found? then Some(l.episode) else e.data)
    ensures r.lastFetch == (if l.Found? then now else e.lastFetch)
    ensures l.Found? ==> r.error == e.error
    ensures l.NotFound? ==> r.error == Some(NotFoundMessage)
    ensures l.Failed? ==> r.error == Some(if l.message == "" then LoadFailedMessage else l.message)
  {
    match l
    case Found(ep) => e.(data := Some(ep), lastFetch := now, loading := false)
    case NotFound => e.(error := Some(NotFoundMessage), loading := false)
    case Failed(m) => e.(error := Some(if m == "" then LoadFailedMessage else m), loading := false)
  }

  /** `fetchEpisode(id, force)` at time `now`, run to completion. */
  function Fetch(c: Caches, id: string, force: bool, now: int, parse: string -> Option<int>, api: string -> Reply): (r: Caches)
    ensures r.Keys == c.Keys
    ensures forall x :: x in c && x != id ==> r[x] == c[x]
    ensures id !in c || Throttled(c[id], force, now) ==> r == c
    ensures id in c && !Throttled(c[id], force, now) ==> r[id] == Settle(Begin(c[id]), Resolve(id, parse, api), now)
  {
    if id !in c || Throttled(c[id], force, now) then c
    else c[id := Settle(Begin(c[id]), Resolve(id, parse, api), now)]
  }

  /** Every fetch that goes ahead clears the old error when it starts and ends not loading;
      it keeps an error afterwards exactly when the episode was not obtained. */
  lemma FetchSettles(c: Caches, id: string, force: bool, now: int, parse: string -> Option<int>, api: string -> Reply)
    requires id in c && !Throttled(c[id], force, now)
    ensures var e := Fetch(c, id, force, now, parse, api)[id];
      && !e.loading
      && (e.error.None? <==> Resolve(id, parse, api).Found?)
      && (e.data != c[id].data ==> Resolve(id, parse, api).Found?)
  {
  }

  /** A forced fetch of a present id always goes to the API, even inside the window where
      the same fetch without `force` is skipped; it is only skipped for an id with no entry. */
  lemma ForcedFetchProceeds(c: Caches, id: string, now: int, parse: string -> Option<int>, api: string -> Reply)
    requires id in c
    ensures Fetch(c, id, true, now, parse, api)[id] == Settle(Begin(c[id]), Resolve(id, parse, api), now)
    ensures c[id].lastFetch != 0 && now - c[id].lastFetch < ThrottleMs ==> Fetch(c, id, false, now, parse, api) == c
  {
  }

  /** After a fetch at `t` finds the episode, a non-forced fetch at `t2` is skipped when `t`
      is not 0 and `t2` comes less than 3000 ms after it, and goes to the API otherwise. */
  lemma ThrottleWindow(c: Caches, id: string, force: bool, t: int, t2: int, parse: string -> Option<int>,
                       api: string -> Reply, api2: string -> Reply)
    requires id in c && !Throttled(c[id], force, t) && Resolve(id, parse, api).Found?
    ensures var c1 := Fetch(c, id, force, t, parse, api);
      && (t != 0 && t2 - t < ThrottleMs ==> Fetch(c1, id, false, t2, parse, api2) == c1)
      && (t == 0 || t2 - t >= ThrottleMs ==>
            Fetch(c1, id, false, t2, parse, api2)[id] == Settle(Begin(c1[id]), Resolve(id, parse, api2), t2))
  {
  }

  /** A fetch that does not find the episode leaves the throttle clock where it was, so the next
      non-forced fetch is throttled exactly when this one would have been. */
  lemma MissKeepsClock(c: Caches, id: string, force: bool, now: int, later: int, parse: string -> Option<int>, api: string -> Reply)
    requires id in c && !Resolve(id, parse, api).Found?
    ensures var c1 := Fetch(c, id, force, now, parse, api);
      id in c1 && (Throttled(c1[id], false, later) <==> Throttled(c[id], false, later))
  {
  }

  // ---------------------------------------------------------------------------------------
  // getCacheByEpisodeId and clearCache

  /** The store right after `getCacheByEpisodeId(id)` returns: an unknown id gets the blank
      entry and a fetch is started (it has set `loading`; it settles later, through `Complete`);
      a known id is left alone. `started` says whether a request went out. */
  datatype Access = Access(caches: Caches, entry: Entry, started: bool)

  function GetCache(c: Caches, id: string): (r: Access)
    ensures r.caches.Keys == c.Keys + {id}
    ensures id in r.caches && r.entry == r.caches[id]
    ensures forall x :: x in c && x != id ==> r.caches[x] == c[x]
    ensures id in c ==> r == Access(c, c[id], false)
    ensures id !in c ==> r.started && r.entry == Begin(Blank)
  {
    if id in c then Access(c, c[id], false)
    else
      var e := Begin(Blank);
      assert !Throttled(Blank, false, 0);
      Access(c[id := e], e, true)
  }

  /** The started fetch settling at time `now` (the entry is updated if the id is still
      cached). */
  function Complete(c: Caches, id: string, now: int, l: Lookup): (r: Caches)
    ensures r.Keys == c.Keys
    ensures forall x :: x in c && x != id ==> r[x] == c[x]
    ensures id in c ==> r[id] == Settle(c[id], l, now)
  {
    if id in c then c[id := Settle(c[id], l, now)] else c
  }

  /** Getting an unknown id and letting its fetch settle is the same as creating the blank
      entry and fetching: the blank entry is never throttled. */
  lemma GetThenCompleteIsFetch(c: Caches, id: string, now: int, parse: string -> Option<int>, api: string -> Reply)
    requires id !in c
    ensures var a := GetCache(c, id);
      Complete(a.caches, id, now, Resolve(id, parse, api)) == Fetch(c[id := Blank], id, false, now, parse, api)
  {
    var a := GetCache(c, id);
    assert !Throttled(Blank, false, now);
    assert Settle(Begin(Blank), Resolve(id, parse, api), now) == Settle(a.caches[id], Resolve(id, parse, api), now);
  }

  /** Getting an id twice is getting it once: the second call finds the entry. */
  lemma GetCacheIdempotent(c: Caches, id: string)
    ensures GetCache(GetCache(c, id).caches, id) == Access(GetCache(c, id).caches, GetCache(c, id).entry, false)
  {
  }

  /** `clearCache(id)`: a non-empty id removes that entry only; no id (or the empty string,
      which is falsy) empties the store. */
  function ClearCache(c: Caches, id: Option<string>): (r: Caches)
    ensures id.Some? && id.value != "" ==> r.Keys == c.Keys - {id.value}
    ensures forall x :: x in r ==> x in c && r[x] == c[x]
    ensures id.None? || id.value == "" ==> r == map[]
  {
    if id.Some? && id.value != "" then c - {id.value} else map[]
  }

  /** After clearing an id, getting it again starts over from the blank entry. */
  lemma ClearThenGetStartsOver(c: Caches, id: string)
    requires id != ""
    ensures GetCache(ClearCache(c, Some(id)), id).entry == Begin(Blank)
    ensures GetCache(ClearCache(c, Some(id)), id).started
  {
  }

  /** Clearing twice is clearing once. */
  lemma ClearCacheIdempotent(c: Caches, id: Option<string>)
    ensures ClearCache(ClearCache(c, id), id) == ClearCache(c, id)
  {
  }

  // ---------------------------------------------------------------------------------------
  // del

  /** `characters.filter(c => c.id !== id)` */
  function Without(cs: seq<Character>, id: Key): (r: seq<Character>)
    ensures |r| <= |cs|
    decreases |cs|
  {
    if |cs| == 0 then []
    else if cs[0].id != id then [cs[0]] + Without(cs[1..], id)
    else Without(cs[1..], id)
  }

  /** A character is kept exactly when it was there and its id differs. */
  lemma {:induction false} WithoutMembers(cs: seq<Character>, id: Key, x: Character)
    ensures x in Without(cs, id) <==> x in cs && x.id != id
    decreases |cs|
  {
    if |cs| > 0 {
      WithoutMembers(cs[1..], id, x);
      assert x in cs <==> x == cs[0] || x in cs[1..];
    }
  }

  /** Filtering keeps order: it distributes over concatenation. */
  lemma {:induction false} WithoutAppend(a: seq<Character>, b: seq<Character>, id: Key)
    ensures Without(a + b, id) == Without(a, id) + Without(b, id)
    decreases |a|
  {
    if |a| == 0 {
      assert a + b == b;
    } else {
      var head := if a[0].id != id then [a[0]] else [];
      assert a == [a[0]] + a[1..];
      assert a + b == [a[0]] + (a[1..] + b);
      WithoutCons(a[0], a[1..], id);
      WithoutCons(a[0], a[1..] + b, id);
      WithoutAppend(a[1..], b, id);
      assert head + (Without(a[1..], id) + Without(b, id)) == (head + Without(a[1..], id)) + Without(b, id);
    }
  }

  lemma WithoutCons(x: Character, rest: seq<Character>, id: Key)
    ensures Without([x] + rest, id) == (if x.id != id then [x] else []) + Without(rest, id)
  {
    assert ([x] + rest)[0] == x && ([x] + rest)[1..] == rest;
  }

  /** Filtering twice is filtering once. */
  lemma {:induction false} WithoutIdempotent(cs: seq<Character>, id: Key)
    ensures Without(Without(cs, id), id) == Without(cs, id)
    decreases |cs|
  {
    if |cs| > 0 {
      WithoutIdempotent(cs[1..], id);
      if cs[0].id != id {
        assert ([cs[0]] + Without(cs[1..], id))[1..] == Without(cs[1..], id);
      }
    }
  }

  function Matching(cs: seq<Character>, id: Key): nat
    decreases |cs|
  {
    if |cs| == 0 then 0 else (if cs[0].id == id then 1 else 0) + Matching(cs[1..], id)
  }

  /** Exactly the characters with a matching id are dropped. */
  lemma {:induction false} WithoutCount(cs: seq<Character>, id: Key)
    ensures |Without(cs, id)| + Matching(cs, id) == |cs|
    decreases |cs|
  {
    if |cs| > 0 {
      WithoutCount(cs[1..], id);
    }
  }

  datatype Kind = CharacterKind | SceneKind | StoryboardKind

  /** `dramaAPI.saveCharacters(drama_id, characters, episodeId)` */
  datatype Save = Save(drama: Option<Key>, characters: seq<Character>, episode: string)

  /** The characters a captured entry holds: none when the episode or its list is missing. */
  function CharactersOf(e: Entry): seq<Character> {
    if e.data.Some? && e.data.value.characters.Some? then e.data.value.characters.value else []
  }

  /** The save request `del` sends from the entry it captured: for characters, the episode's
      characters (none if missing) filtered by `Without`, which keeps every other character
      in its order and drops exactly the ones with the deleted id; scenes and storyboards send
      nothing. */
  function DelRequest(e: Entry, id: string, kind: Kind, target: Key): (r: Option<Save>)
    ensures r.Some? <==> kind == CharacterKind
    ensures r.Some? ==> r.value.episode == id && r.value.drama == (if e.data.Some? then e.data.value.drama else None)
    ensures r.Some? ==> r.value.characters == Without(CharactersOf(e), target)
    ensures r.Some? ==> forall x :: x in r.value.characters <==> x in CharactersOf(e) && x.id != target
    ensures r.Some? ==> |r.value.characters| + Matching(CharactersOf(e), target) == |CharactersOf(e)|
  {
    match kind
    case CharacterKind =>
      var cs := CharactersOf(e);
      forall x ensures x in Without(cs, target) <==> x in cs && x.id != target {
        WithoutMembers(cs, target, x);
      }
      WithoutCount(cs, target);
      Some(Save(if e.data.Some? then e.data.value.drama else None, Without(cs, target), id))
    case SceneKind => None
    case StoryboardKind => None
  }

  /** `del` as a whole: after a character save that succeeds, a forced refetch; a rejected
      save stops there; other kinds do nothing. */
  function Del(c: Caches, e: Entry, id: string, kind: Kind, target: Key, saved: bool, now: int,
               parse: string -> Option<int>, api: string -> Reply): (r: (Option<Save>, Caches))
    ensures r.0 == DelRequest(e, id, kind, target)
    ensures r.1.Keys == c.Keys
    ensures r.0.None? || !saved ==> r.1 == c
    ensures r.0.Some? && saved && id in c ==> r.1[id] == Settle(Begin(c[id]), Resolve(id, parse, api), now)
    ensures forall x :: x in c && x != id ==> r.1[x] == c[x]
  {
    var req := DelRequest(e, id, kind, target);
    if req.Some? && saved then (req, Fetch(c, id, true, now, parse, api)) else (req, c)
  }
}
