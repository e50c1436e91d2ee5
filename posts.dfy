/**
 * The file-backed post repository: listing `data/posts`, loading one post
 * (two error policies: the server module never throws, the plain module
 * throws for everything but a missing file), all / published posts,
 * lookup by slug, the newest-first sort, and the key-sorting serialiser
 * used when writing a post.
 *
 * The file system, `JSON.parse`, `JSON.stringify` and the schema
 * validation are parameters.
 */
module Posts {
  import opened Wrappers
  import opened JsValue
  import opened Text

  /** The fields of a post the repository reads; `publishedAt` is `null` for a draft. */
  datatype Post = Post(id: string, slug: string, publishedAt: Option<int>, lastModifiedAt: int)

  /** A call that returns a value or throws. */
  datatype Outcome<T> = Returns(value: T) | Throws

  /** `fs.readdir(POSTS_DIR)`: the names, a missing directory (`ENOENT`), or another error. */
  datatype DirListing = Entries(names: seq<string>) | NoDirectory | ListFailed

  /** `fs.readFile(path)`: the text, a missing file (`ENOENT`), or another error. */
  datatype FileRead = Contents(text: string) | Missing | ReadFailed

  /**
   * Everything outside the repository's own logic: the directory, the
   * files by name, `JSON.parse` (`None` where it throws) and the schema
   * check (`None` where it fails).
   */
  datatype Backend = Backend(
    listing: DirListing,
    read: string -> FileRead,
    parse: string -> Option<Value>,
    validate: Value -> Option<Post>)

  const Extension: string := ".json"

  /** The file a post id is stored in: `${id}.json`. */
  function FileName(id: string): string
  {
    id + Extension
  }

  // ---------------------------------------------------------------------
  // Listing
  // ---------------------------------------------------------------------

  /** As written: `.filter(f => f.endsWith('.json')).map(f => f.replace('.json', ''))`. */
  function IdsAsWritten(names: seq<string>): (ids: seq<string>)
    ensures |ids| <= |names|
  {
    if names == [] then []
    else (if EndsWith(names[0], Extension) then [ReplaceFirst(names[0], Extension, "")] else [])
         + IdsAsWritten(names[1..])
  }

  /** The name without its trailing `.json`. */
  function Stem(name: string): string
    requires EndsWith(name, Extension)
  {
    name[..|name| - |Extension|]
  }

  /** The listed ids with the extension taken off the end of each name. */
  function Ids(names: seq<string>): (ids: seq<string>)
    ensures |ids| <= |names|
  {
    if names == [] then []
    else (if EndsWith(names[0], Extension) then [Stem(names[0])] else []) + Ids(names[1..])
  }

  /** Every listed id names a listed file, and every `.json` file is listed under its stem. */
  lemma {:induction false} IdsNameTheirFiles(names: seq<string>)
    ensures forall id :: id in Ids(names) ==> FileName(id) in names
    ensures forall n :: n in names && EndsWith(n, Extension) ==> Stem(n) in Ids(names)
  {
    if names != [] {
      IdsNameTheirFiles(names[1..]);
      if EndsWith(names[0], Extension) {
        assert FileName(Stem(names[0])) == names[0];
      }
      forall n | n in names && EndsWith(n, Extension)
        ensures Stem(n) in Ids(names)
      {
        if n != names[0] {
          assert n in names[1..];
        }
      }
    }
  }

  /**
   * A name with `.json` inside it as well as at the end: as written the
   * first `.json` is removed, and the id no longer names the file.
   */
  lemma FirstOccurrenceStripExample()
    ensures IdsAsWritten(["x.jsonfoo.json"]) == ["xfoo.json"]
    ensures FileName("xfoo.json") != "x.jsonfoo.json"
    ensures Ids(["x.jsonfoo.json"]) == ["x.jsonfoo"] && FileName("x.jsonfoo") == "x.jsonfoo.json"
  {
    var f := "x.jsonfoo.json";
    assert EndsWith(f, Extension) by {
      assert f[|f| - 5..] == ".json";
    }
    assert !OccursAt(f, Extension, 0) by {
      assert f[0] == 'x';
    }
    assert OccursAt(f, Extension, 1) by {
      assert f[1..6] == ".json";
    }
    assert ReplaceFirst(f, Extension, "") == f[..1] + f[6..];
    assert f[..1] + f[6..] == "xfoo.json";
    assert ["x.jsonfoo.json"][1..] == [];
    assert Stem(f) == "x.jsonfoo";
    assert FileName("xfoo.json")[1] != f[1];
  }

  /** `.json` occurs in the name only at its end. */
  predicate OnlyTrailingExtension(name: string)
  {
    forall j :: 0 <= j < |name| - |Extension| ==> !OccursAt(name, Extension, j)
  }

  /** For a name whose only `.json` is the trailing one, removing the first `.json` leaves the stem. */
  lemma ReplaceFirstIsStem(name: string)
    requires EndsWith(name, Extension) && OnlyTrailingExtension(name)
    ensures ReplaceFirst(name, Extension, "") == Stem(name)
  {
    var k := |name| - |Extension|;
    assert OccursAt(name, Extension, k);
    match IndexOfFrom(name, Extension, 0)
    case None =>
      assert false;
    case Some(i) =>
      assert i == k;
      assert name[..k] + "" + name[k + |Extension|..] == name[..k];
  }

  /**
   * When no listed `.json` name holds `.json` anywhere but at its end, the
   * listing as written gives exactly the ids of the stems.
   */
  lemma {:induction false} IdsAsWrittenAgree(names: seq<string>)
    requires forall n :: n in names && EndsWith(n, Extension) ==> OnlyTrailingExtension(n)
    ensures IdsAsWritten(names) == Ids(names)
  {
    if names != [] {
      assert forall n :: n in names[1..] ==> n in names;
      IdsAsWrittenAgree(names[1..]);
      if EndsWith(names[0], Extension) {
        ReplaceFirstIsStem(names[0]);
      }
    }
  }

  /**
   * `listPosts()`: the `.json` names with their first `.json` removed; a
   * missing directory lists nothing; any other failure is thrown.
   */
  function ListPosts(listing: DirListing): (r: Outcome<seq<string>>)
    ensures listing.NoDirectory? ==> r == Returns([])
    ensures r.Throws? <==> listing.ListFailed?
    ensures listing.Entries? ==> r == Returns(IdsAsWritten(listing.names))
  {
    match listing
    case Entries(names) => Returns(IdsAsWritten(names))
    case NoDirectory => Returns([])
    case ListFailed => Throws
  }

  // ---------------------------------------------------------------------
  // Loading one post
  // ---------------------------------------------------------------------

  /** The file of `id` read, parsed and validated to `p`. */
  predicate LoadsAs(b: Backend, id: string, p: Post)
  {
    var file := b.read(FileName(id));
    file.Contents? && b.parse(file.text).Some? && b.validate(b.parse(file.text).value) == Some(p)
  }

  /** `getPostById` of the server module: `null` for a missing file, a read error, bad JSON or a failed validation. */
  function GetPostById(b: Backend, id: string): (r: Option<Post>)
    ensures forall p :: r == Some(p) <==> LoadsAs(b, id, p)
  {
    match b.read(FileName(id))
    case Missing => None
    case ReadFailed => None
    case Contents(text) =>
      match b.parse(text)
      case None => None
      case Some(data) => b.validate(data)
  }

  /** `getPostById` of the plain module: `null` only for a missing file; every other failure is thrown. */
  function GetPostByIdStrict(b: Backend, id: string): (r: Outcome<Option<Post>>)
    ensures r == Returns(None) <==> b.read(FileName(id)).Missing?
    ensures forall p :: r == Returns(Some(p)) <==> LoadsAs(b, id, p)
  {
    match b.read(FileName(id))
    case Missing => Returns(None)
    case ReadFailed => Throws
    case Contents(text) =>
      match b.parse(text)
      case None => Throws
      case Some(data) =>
        match b.validate(data)
        case None => Throws
        case Some(p) => Returns(Some(p))
  }

  /** The two policies agree wherever the plain one returns, and the server one gives `null` wherever the plain one throws. */
  lemma LoadPoliciesAgree(b: Backend, id: string)
    ensures GetPostByIdStrict(b, id).Returns? ==> GetPostById(b, id) == GetPostByIdStrict(b, id).value
    ensures GetPostByIdStrict(b, id).Throws? ==> GetPostById(b, id).None?
  {
  }

  // ---------------------------------------------------------------------
  // Collections of posts
  // ---------------------------------------------------------------------

  /** The posts of `ids` that load, in id order. */
  function LoadAll(b: Backend, ids: seq<string>): (posts: seq<Post>)
    ensures |posts| <= |ids|
  {
    if ids == [] then []
    else
      var first := GetPostById(b, ids[0]);
      (if first.Some? then [first.value] else []) + LoadAll(b, ids[1..])
  }

  predicate LoadedFrom(b: Backend, ids: seq<string>, p: Post)
  {
    exists id :: id in ids && LoadsAs(b, id, p)
  }

  /** A post is loaded exactly when some listed id loads as it. */
  lemma {:induction false} LoadAllMembers(b: Backend, ids: seq<string>)
    ensures forall p :: p in LoadAll(b, ids) <==> LoadedFrom(b, ids, p)
  {
    if ids != [] {
      LoadAllMembers(b, ids[1..]);
      forall p | LoadedFrom(b, ids, p)
        ensures p in LoadAll(b, ids)
      {
        var id :| id in ids && LoadsAs(b, id, p);
        if id != ids[0] {
          assert id in ids[1..];
        }
      }
      forall p | p in LoadAll(b, ids)
        ensures LoadedFrom(b, ids, p)
      {
        if GetPostById(b, ids[0]) != Some(p) {
          assert p in LoadAll(b, ids[1..]);
          var id :| id in ids[1..] && LoadsAs(b, id, p);
          assert id in ids;
        }
      }
    }
  }

  /** `getAllPosts()`: the listed posts that load; a listing that throws gives none. */
  function AllPosts(b: Backend): (posts: seq<Post>)
  {
    match ListPosts(b.listing)
    case Throws => []
    case Returns(ids) => LoadAll(b, ids)
  }

  /**
   * A post is among all posts exactly when it loads under one of the ids
   * `listPosts()` gives; when no `.json` name holds `.json` before its
   * end, those ids are the stems of the listed `.json` names.
   */
  lemma AllPostsMembers(b: Backend, p: Post)
    ensures p in AllPosts(b) <==> b.listing.Entries? && LoadedFrom(b, IdsAsWritten(b.listing.names), p)
    ensures b.listing.Entries? && (forall n :: n in b.listing.names && EndsWith(n, Extension) ==> OnlyTrailingExtension(n)) ==>
      (p in AllPosts(b) <==> LoadedFrom(b, Ids(b.listing.names), p))
    ensures !b.listing.Entries? ==> AllPosts(b) == []
  {
    if b.listing.Entries? {
      LoadAllMembers(b, IdsAsWritten(b.listing.names));
      if forall n :: n in b.listing.names && EndsWith(n, Extension) ==> OnlyTrailingExtension(n) {
        IdsAsWrittenAgree(b.listing.names);
      }
    }
  }

  /** `posts.filter(p => p.metadata.publishedAt !== null)` */
  function Published(posts: seq<Post>): (r: seq<Post>)
    ensures |r| <= |posts|
    ensures forall p :: p in r <==> p in posts && p.publishedAt.Some?
  {
    if posts == [] then []
    else (if posts[0].publishedAt.Some? then [posts[0]] else []) + Published(posts[1..])
  }

  /** `getPublishedPosts()` */
  function PublishedPosts(b: Backend): (r: seq<Post>)
    ensures forall p :: p in r <==> p in AllPosts(b) && p.publishedAt.Some?
  {
    Published(AllPosts(b))
  }

  /** No post before index `i` has the slug. */
  predicate NoneBefore(posts: seq<Post>, slug: string, i: nat)
    requires i <= |posts|
  {
    forall j :: 0 <= j < i ==> posts[j].slug != slug
  }

  /** `posts.find(p => p.slug === slug) ?? null` */
  function FindBySlug(posts: seq<Post>, slug: string): (r: Option<nat>)
    ensures r.Some? ==> r.value < |posts| && posts[r.value].slug == slug && NoneBefore(posts, slug, r.value)
    ensures r.None? ==> NoneBefore(posts, slug, |posts|)
  {
    if posts == [] then None
    else if posts[0].slug == slug then Some(0)
    else match FindBySlug(posts[1..], slug)
      case None => None
      case Some(i) => Some(i + 1)
  }

  /** `getPostBySlug(slug)`: the first loaded post with the slug, or `null`. */
  function PostBySlug(b: Backend, slug: string): (r: Option<Post>)
    ensures r.Some? ==> r.value in AllPosts(b) && r.value.slug == slug
    ensures r.Some? ==> exists i :: 0 <= i < |AllPosts(b)| && AllPosts(b)[i] == r.value && NoneBefore(AllPosts(b), slug, i)
    ensures r.None? <==> forall p :: p in AllPosts(b) ==> p.slug != slug
  {
    var posts := AllPosts(b);
    match FindBySlug(posts, slug)
    case None => None
    case Some(i) => Some(posts[i])
  }

  // ---------------------------------------------------------------------
  // `sortPostsByDate`: newest first by `publishedAt ?? lastModifiedAt`.
  // The library sort is stable, so posts with equal dates keep their order.
  // ---------------------------------------------------------------------

  function DateKey(p: Post): int
  {
    p.publishedAt.GetOr(p.lastModifiedAt)
  }

  predicate NewestFirst(s: seq<Post>)
  {
    forall i, j :: 0 <= i < j < |s| ==> DateKey(s[i]) >= DateKey(s[j])
  }

  /** Puts `p` in front of the first post that is not newer than it. */
  function InsertByDate(p: Post, s: seq<Post>): (r: seq<Post>)
  {
    if s == [] then [p]
    else if DateKey(p) >= DateKey(s[0]) then [p] + s
    else [s[0]] + InsertByDate(p, s[1..])
  }

  /** `[...posts].sort((a, b) => bDate - aDate)`, a new sequence; the argument is a value and cannot change. */
  function SortByDate(posts: seq<Post>): seq<Post>
  {
    if posts == [] then [] else InsertByDate(posts[0], SortByDate(posts[1..]))
  }

  lemma {:induction false} InsertByDatePermutes(p: Post, s: seq<Post>)
    ensures multiset(InsertByDate(p, s)) == multiset(s) + multiset{p}
  {
    if s != [] && DateKey(p) < DateKey(s[0]) {
      InsertByDatePermutes(p, s[1..]);
      assert s == [s[0]] + s[1..];
    }
  }

  /** Every post of `InsertByDate(p, s)` is at most `k` when `p` and every post of `s` are. */
  lemma {:induction false} InsertByDateBounded(p: Post, s: seq<Post>, k: int)
    requires DateKey(p) <= k
    requires forall i :: 0 <= i < |s| ==> DateKey(s[i]) <= k
    ensures forall i :: 0 <= i < |InsertByDate(p, s)| ==> DateKey(InsertByDate(p, s)[i]) <= k
  {
    if s != [] && DateKey(p) < DateKey(s[0]) {
      InsertByDateBounded(p, s[1..], k);
      var tail := InsertByDate(p, s[1..]);
      assert InsertByDate(p, s) == [s[0]] + tail;
      assert forall i :: 1 <= i < |[s[0]] + tail| ==> ([s[0]] + tail)[i] == tail[i - 1];
    }
  }

  /** A head at least as new as every post of a newest-first tail keeps the order. */
  lemma ConsNewestFirst(h: Post, tail: seq<Post>)
    requires NewestFirst(tail)
    requires forall i :: 0 <= i < |tail| ==> DateKey(tail[i]) <= DateKey(h)
    ensures NewestFirst([h] + tail)
  {
    var r := [h] + tail;
    forall i, j | 0 <= i < j < |r|
      ensures DateKey(r[i]) >= DateKey(r[j])
    {
      assert r[j] == tail[j - 1];
      if i > 0 {
        assert r[i] == tail[i - 1];
      }
    }
  }

  lemma {:induction false} InsertByDateSpec(p: Post, s: seq<Post>)
    requires NewestFirst(s)
    ensures multiset(InsertByDate(p, s)) == multiset(s) + multiset{p}
    ensures NewestFirst(InsertByDate(p, s))
  {
    InsertByDatePermutes(p, s);
    if s != [] && DateKey(p) < DateKey(s[0]) {
      InsertByDateSpec(p, s[1..]);
      InsertByDateBounded(p, s[1..], DateKey(s[0]));
      ConsNewestFirst(s[0], InsertByDate(p, s[1..]));
    }
  }

  /** The result holds the same posts, newest first. */
  lemma {:induction false} SortByDateSpec(posts: seq<Post>)
    ensures multiset(SortByDate(posts)) == multiset(posts)
    ensures NewestFirst(SortByDate(posts))
  {
    if posts != [] {
      SortByDateSpec(posts[1..]);
      InsertByDateSpec(posts[0], SortByDate(posts[1..]));
      assert posts == [posts[0]] + posts[1..];
    }
  }

  /** The posts dated `k`, in order. */
  function DatedAt(s: seq<Post>, k: int): (r: seq<Post>)
  {
    if s == [] then [] else (if DateKey(s[0]) == k then [s[0]] else []) + DatedAt(s[1..], k)
  }

  lemma {:induction false} InsertByDateStable(p: Post, s: seq<Post>, k: int)
    ensures DatedAt(InsertByDate(p, s), k) == (if DateKey(p) == k then [p] else []) + DatedAt(s, k)
  {
    if s != [] && DateKey(p) < DateKey(s[0]) {
      InsertByDateStable(p, s[1..], k);
      var r := InsertByDate(p, s);
      assert r[0] == s[0] && r[1..] == InsertByDate(p, s[1..]);
      var head := if DateKey(s[0]) == k then [s[0]] else [];
      assert DatedAt(r, k) == head + DatedAt(r[1..], k);
      assert DatedAt(s, k) == head + DatedAt(s[1..], k);
      if DateKey(p) == k {
        assert head == [];
      }
    } else if s != [] {
      assert ([p] + s)[1..] == s;
    }
  }

  /** Stability: the posts of any one date come out in their input order. */
  lemma {:induction false} SortByDateStable(posts: seq<Post>, k: int)
    ensures DatedAt(SortByDate(posts), k) == DatedAt(posts, k)
  {
    if posts != [] {
      SortByDateStable(posts[1..], k);
      InsertByDateStable(posts[0], SortByDate(posts[1..]), k);
    }
  }

  /** `getPostsForListing()`: every post in development, the published ones otherwise, newest first. */
  function PostsForListing(b: Backend, dev: bool): (r: seq<Post>)
  {
    SortByDate(if dev then AllPosts(b) else PublishedPosts(b))
  }

  lemma PostsForListingSpec(b: Backend, dev: bool)
    ensures NewestFirst(PostsForListing(b, dev))
    ensures multiset(PostsForListing(b, dev)) == multiset(if dev then AllPosts(b) else PublishedPosts(b))
    ensures !dev ==> forall p :: p in PostsForListing(b, dev) ==> p.publishedAt.Some?
  {
    SortByDateSpec(if dev then AllPosts(b) else PublishedPosts(b));
    if !dev {
      forall p | p in PostsForListing(b, dev)
        ensures p.publishedAt.Some?
      {
        assert p in multiset(PostsForListing(b, dev));
      }
    }
  }

  // ---------------------------------------------------------------------
  // `sortedStringify`
  // ---------------------------------------------------------------------

  /** `a <= b` in the default string order of `Array.prototype.sort`. */
  predicate KeyLe(a: string, b: string)
  {
    a == [] || (b != [] && (a[0] < b[0] || (a[0] == b[0] && KeyLe(a[1..], b[1..]))))
  }

  lemma {:induction false} KeyLeTotal(a: string, b: string)
    ensures KeyLe(a, b) || KeyLe(b, a)
  {
    if a != [] && b != [] && a[0] == b[0] {
      KeyLeTotal(a[1..], b[1..]);
    }
  }

  predicate KeysAscending(ks: seq<string>)
  {
    forall i :: 0 <= i < |ks| - 1 ==> KeyLe(ks[i], ks[i + 1])
  }

  function InsertKey(k: string, ks: seq<string>): seq<string>
  {
    if ks == [] then [k]
    else if KeyLe(k, ks[0]) then [k] + ks
    else [ks[0]] + InsertKey(k, ks[1..])
  }

  /** `keys.sort()` */
  function SortKeys(ks: seq<string>): seq<string>
  {
    if ks == [] then [] else InsertKey(ks[0], SortKeys(ks[1..]))
  }

  lemma {:induction false} InsertKeySpec(k: string, ks: seq<string>)
    requires KeysAscending(ks)
    ensures multiset(InsertKey(k, ks)) == multiset(ks) + multiset{k}
    ensures |InsertKey(k, ks)| == |ks| + 1
    ensures InsertKey(k, ks)[0] == k || InsertKey(k, ks)[0] == ks[0]
    ensures KeysAscending(InsertKey(k, ks))
  {
    if ks != [] && !KeyLe(k, ks[0]) {
      InsertKeySpec(k, ks[1..]);
      KeyLeTotal(k, ks[0]);
      assert ks == [ks[0]] + ks[1..];
      var r := InsertKey(k, ks);
      assert r[1..] == InsertKey(k, ks[1..]);
      if |ks| > 1 {
        assert KeyLe(ks[0], ks[1]);
      }
      forall i | 0 <= i < |r| - 1
        ensures KeyLe(r[i], r[i + 1])
      {
        if i > 0 {
          assert r[i] == r[1..][i - 1] && r[i + 1] == r[1..][i];
        }
      }
    }
  }

  /** The sorted keys are the same keys, ascending. */
  lemma {:induction false} SortKeysSpec(ks: seq<string>)
    ensures multiset(SortKeys(ks)) == multiset(ks)
    ensures KeysAscending(SortKeys(ks))
  {
    if ks != [] {
      SortKeysSpec(ks[1..]);
      InsertKeySpec(ks[0], SortKeys(ks[1..]));
      assert ks == [ks[0]] + ks[1..];
    }
  }

  /** `Object.keys(obj)` */
  function KeysOf(fields: seq<(string, Value)>): (ks: seq<string>)
    ensures |ks| == |fields|
    ensures forall i :: 0 <= i < |fields| ==> ks[i] == fields[i].0
  {
    if fields == [] then [] else [fields[0].0] + KeysOf(fields[1..])
  }

  /** `obj[key]`: the first binding of `key`, `undefined` when there is none. */
  function Lookup(fields: seq<(string, Value)>, key: string): (v: Value)
    ensures key !in KeysOf(fields) ==> v == Undef
  {
    if fields == [] then Undef
    else if fields[0].0 == key then fields[0].1
    else Lookup(fields[1..], key)
  }

  /** The object built by assigning `obj[key]` for each key of `ks` in turn (the keys of an object are distinct). */
  function Assigned(fields: seq<(string, Value)>, ks: seq<string>): (r: seq<(string, Value)>)
    ensures KeysOf(r) == ks
  {
    if ks == [] then []
    else Assigned(fields, ks[..|ks| - 1]) + [(ks[|ks| - 1], Lookup(fields, ks[|ks| - 1]))]
  }

  lemma {:induction false} AssignedLookup(fields: seq<(string, Value)>, ks: seq<string>, key: string)
    ensures Lookup(Assigned(fields, ks), key) == (if key in ks then Lookup(fields, key) else Undef)
  {
    if ks != [] {
      var init := ks[..|ks| - 1];
      AssignedLookup(fields, init, key);
      LookupSnoc(Assigned(fields, init), (ks[|ks| - 1], Lookup(fields, ks[|ks| - 1])), key);
      assert ks == init + [ks[|ks| - 1]];
    }
  }

  lemma {:induction false} LookupSnoc(fields: seq<(string, Value)>, f: (string, Value), key: string)
    ensures Lookup(fields + [f], key) ==
      (if key in KeysOf(fields) then Lookup(fields, key) else if f.0 == key then f.1 else Undef)
  {
    if fields != [] {
      LookupSnoc(fields[1..], f, key);
      assert (fields + [f])[1..] == fields[1..] + [f];
    }
  }

  /** The object `sortedStringify` builds from `obj`: its keys sorted, each with its value. */
  function SortedFields(fields: seq<(string, Value)>): seq<(string, Value)>
  {
    Assigned(fields, SortKeys(KeysOf(fields)))
  }

  /**
   * The sorted object has the same keys, ascending, and every key has the
   * value it had: reading it back gives an equal object.
   */
  lemma SortedFieldsSpec(fields: seq<(string, Value)>)
    ensures multiset(KeysOf(SortedFields(fields))) == multiset(KeysOf(fields))
    ensures KeysAscending(KeysOf(SortedFields(fields)))
    ensures forall key :: Lookup(SortedFields(fields), key) == Lookup(fields, key)
  {
    var ks := SortKeys(KeysOf(fields));
    SortKeysSpec(KeysOf(fields));
    forall key
      ensures Lookup(SortedFields(fields), key) == Lookup(fields, key)
    {
      AssignedLookup(fields, ks, key);
      assert key in ks <==> key in multiset(ks);
    }
  }

  /** `Object.keys(obj).sort().forEach(key => { sortedObj[key] = obj[key]; })` */
  method FillSorted(fields: seq<(string, Value)>) returns (sortedObj: seq<(string, Value)>)
    ensures sortedObj == SortedFields(fields)
  {
    var ks := SortKeys(KeysOf(fields));
    sortedObj := [];
    for i := 0 to |ks|
      invariant sortedObj == Assigned(fields, ks[..i])
    {
      assert ks[..i + 1][..i] == ks[..i];
      sortedObj := sortedObj + [(ks[i], Lookup(fields, ks[i]))];
    }
    assert ks[..|ks|] == ks;
  }

  /** `typeof v === 'object' && v !== null` */
  predicate IsObject(v: Value)
  {
    v.Arr? || v.Obj?
  }

  /**
   * The value `sortedStringify` serialises: an object gets its own keys
   * sorted and keeps its values as they are; an array has each object or
   * array element treated the same way; anything else is unchanged.
   */
  function SortedValue(v: Value): Value
  {
    match v
    case Obj(fields) => Obj(SortedFields(fields))
    case Arr(items) => Arr(SortedItems(items))
    case _ => v
  }

  function SortedItems(items: seq<Value>): (r: seq<Value>)
    ensures |r| == |items|
  {
    if items == [] then []
    else [if IsObject(items[0]) then SortedValue(items[0]) else items[0]] + SortedItems(items[1..])
  }

  /** `sortedStringify(post)` */
  function SortedStringify(v: Value, stringify: Value -> string): string
  {
    stringify(SortedValue(v))
  }

  /**
   * Equal as JavaScript data once read back: objects with the same keys
   * bound to identical values, arrays element by element.
   */
  ghost predicate SameData(a: Value, b: Value)
    decreases a
  {
    match a
    case Obj(fields) =>
      b.Obj? && (forall key :: key in KeysOf(fields) <==> key in KeysOf(b.fields))
      && forall key :: Lookup(fields, key) == Lookup(b.fields, key)
    case Arr(items) =>
      b.Arr? && |b.items| == |items| && forall i :: 0 <= i < |items| ==> SameData(items[i], b.items[i])
    case _ => a == b
  }

  /** The serialised value is the input with only key order changed. */
  lemma {:induction false} SortedValueSameData(v: Value)
    ensures SameData(v, SortedValue(v))
    decreases v
  {
    match v
    case Obj(fields) =>
      SortedFieldsSpec(fields);
      forall key
        ensures key in KeysOf(fields) <==> key in KeysOf(SortedFields(fields))
      {
        assert key in KeysOf(fields) <==> key in multiset(KeysOf(fields));
      }
    case Arr(items) =>
      forall i | 0 <= i < |items|
        ensures SameData(items[i], SortedItems(items)[i])
      {
        SortedItemsAt(items, i);
        if IsObject(items[i]) {
          SortedValueSameData(items[i]);
        }
      }
    case _ =>
  }

  lemma {:induction false} SortedItemsAt(items: seq<Value>, i: nat)
    requires i < |items|
    ensures SortedItems(items)[i] == if IsObject(items[i]) then SortedValue(items[i]) else items[i]
  {
    if i > 0 {
      SortedItemsAt(items[1..], i - 1);
    }
  }

  /** Only the outermost keys are sorted: an object under a key keeps its key order. */
  lemma OutermostKeysOnly()
    ensures var inner := Obj([("z", Num(1)), ("a", Num(2))]);
      SortedValue(Obj([("b", inner), ("a", Null)])) == Obj([("a", Null), ("b", inner)])
  {
    var inner := Obj([("z", Num(1)), ("a", Num(2))]);
    var fields := [("b", inner), ("a", Null)];
    var ka, kb := "a", "b";
    assert KeysOf(fields) == [kb, ka];
    assert KeyLe(ka, kb) && !KeyLe(kb, ka) by {
      assert ka[0] < kb[0];
    }
    assert SortKeys([ka]) == [ka] by {
      assert [ka][1..] == [];
    }
    assert InsertKey(kb, [ka]) == [ka, kb] by {
      assert [ka][1..] == [];
    }
    assert SortKeys([kb, ka]) == [ka, kb] by {
      assert [kb, ka][1..] == [ka];
    }
    assert Lookup(fields, kb) == inner;
    assert Lookup(fields, ka) == Null by {
      assert fields[1..] == [(ka, Null)];
    }
    assert Assigned(fields, [ka]) == [(ka, Null)] by {
      assert [ka][..0] == [];
    }
    assert Assigned(fields, [ka, kb]) == [(ka, Null), (kb, inner)] by {
      assert [ka, kb][..1] == [ka];
    }
  }

  /** `writePost(post)`: declined when validation fails; otherwise `${id}.json` receives the key-sorted JSON. */
  datatype Write = Rejected | WriteFile(path: string, text: string)

  function WritePost(post: Value, validate: Value -> Option<Post>, stringify: Value -> string): (w: Write)
    ensures w.Rejected? <==> validate(post).None?
    ensures w.WriteFile? ==> w.path == FileName(validate(post).value.id)
    ensures w.WriteFile? ==> w.text == stringify(SortedValue(post))
  {
    match validate(post)
    case None => Rejected
    case Some(p) => WriteFile(FileName(p.id), SortedStringify(post, stringify))
  }
}
