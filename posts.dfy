/** The `/api/posts` routes: the queries behind the public feed, tag pages,
    search and my-drafts, the draft-visibility guard of `GET /:id`, and the
    owner-checked writes `POST /`, `PUT /:id` and `PUT /:id/publish` over the
    `posts` table. */
module Posts {
  import opened Base
  import opened JsText
  import opened Crypto
  import opened PostTags
  import opened Sql

  datatype Post = Post(
    id: int,
    title: Option<string>,
    content: Option<string>,
    authorId: int,
    draft: bool,
    tags: seq<string>,
    createdAt: int,
    updatedAt: int)

  // ---------------------------------------------------------------------
  // Queries
  // ---------------------------------------------------------------------

  /** The rows a `WHERE` clause keeps, in table order, each as often as it
      occurs in the table. */
  function Where(rows: seq<Post>, keep: Post -> bool): (r: seq<Post>)
    ensures forall p :: p in r <==> p in rows && keep(p)
    ensures forall p :: multiset(r)[p] == if keep(p) then multiset(rows)[p] else 0
  {
    if rows == [] then []
    else
      assert rows == [rows[0]] + rows[1..];
      if keep(rows[0]) then [rows[0]] + Where(rows[1..], keep)
      else Where(rows[1..], keep)
  }

  /** `ORDER BY created_at DESC` */
  predicate NewestFirst(s: seq<Post>) {
    forall i, j :: 0 <= i < j < |s| ==> s[i].createdAt >= s[j].createdAt
  }

  /** Insertion of one row before the first row that is not newer. */
  function InsertNewestFirst(p: Post, s: seq<Post>): (r: seq<Post>)
    ensures |r| == |s| + 1
  {
    if s == [] then [p]
    else if p.createdAt >= s[0].createdAt then [p] + s
    else [s[0]] + InsertNewestFirst(p, s[1..])
  }

  lemma {:induction false} InsertMembers(p: Post, s: seq<Post>)
    ensures multiset(InsertNewestFirst(p, s)) == multiset(s) + multiset{p}
    ensures forall q :: q in InsertNewestFirst(p, s) <==> q == p || q in s
  {
    if s != [] && p.createdAt < s[0].createdAt {
      InsertMembers(p, s[1..]);
      assert s == [s[0]] + s[1..];
    }
  }

  lemma {:induction false} InsertSorted(p: Post, s: seq<Post>)
    requires NewestFirst(s)
    ensures NewestFirst(InsertNewestFirst(p, s))
  {
    if s != [] && p.createdAt < s[0].createdAt {
      var t := InsertNewestFirst(p, s[1..]);
      InsertSorted(p, s[1..]);
      InsertMembers(p, s[1..]);
      forall j | 0 <= j < |t| ensures s[0].createdAt >= t[j].createdAt {
        assert t[j] in t;
        if t[j] != p {
          var i :| 0 <= i < |s[1..]| && s[1..][i] == t[j];
          assert s[i + 1] == t[j];
        }
      }
      var r := [s[0]] + t;
      forall i, j | 0 <= i < j < |r| ensures r[i].createdAt >= r[j].createdAt {
        if i == 0 { assert r[j] == t[j - 1]; }
        else { assert r[i] == t[i - 1] && r[j] == t[j - 1]; }
      }
    }
  }

  /** One order the database may return for `ORDER BY created_at DESC` (rows
      with equal timestamps may come in any order). */
  function SortNewestFirst(s: seq<Post>): (r: seq<Post>)
    ensures NewestFirst(r)
    ensures multiset(r) == multiset(s)
  {
    if s == [] then []
    else
      var t := SortNewestFirst(s[1..]);
      InsertSorted(s[0], t);
      InsertMembers(s[0], t);
      assert s == [s[0]] + s[1..];
      InsertNewestFirst(s[0], t)
  }

  lemma SameElements(a: seq<Post>, b: seq<Post>)
    requires multiset(a) == multiset(b)
    ensures forall q :: q in a <==> q in b
  {
    forall q ensures q in a <==> q in b {
      assert q in a <==> q in multiset(a);
      assert q in b <==> q in multiset(b);
    }
  }

  /** `GET /api/posts`: every published post, newest first. */
  function Feed(rows: seq<Post>): (r: seq<Post>)
    ensures forall p :: p in r <==> p in rows && !p.draft
    ensures NewestFirst(r)
    ensures forall p :: multiset(r)[p] == if !p.draft then multiset(rows)[p] else 0
  {
    var sel := Where(rows, (p: Post) => !p.draft);
    var r := SortNewestFirst(sel);
    SameElements(r, sel);
    r
  }

  /** `GET /api/posts/tag/:tag`: the published posts carrying the tag. */
  function ByTag(rows: seq<Post>, tag: string): (r: seq<Post>)
    ensures forall p :: p in r <==> p in rows && !p.draft && tag in p.tags
    ensures NewestFirst(r)
    ensures forall p :: multiset(r)[p] == if !p.draft && tag in p.tags then multiset(rows)[p] else 0
  {
    var sel := Where(rows, (p: Post) => !p.draft && tag in p.tags);
    var r := SortNewestFirst(sel);
    SameElements(r, sel);
    r
  }

  /** `GET /api/posts/my-drafts`: the caller's own drafts and nothing else. */
  function MyDrafts(rows: seq<Post>, userId: int): (r: seq<Post>)
    ensures forall p :: p in r <==> p in rows && p.draft && p.authorId == userId
    ensures NewestFirst(r)
    ensures forall p :: multiset(r)[p] == if p.draft && p.authorId == userId then multiset(rows)[p] else 0
  {
    var sel := Where(rows, (p: Post) => p.authorId == userId && p.draft);
    var r := SortNewestFirst(sel);
    SameElements(r, sel);
    r
  }

  /** `GET /api/auth/my-posts`: the caller's published posts. */
  function MyPosts(rows: seq<Post>, userId: int): (r: seq<Post>)
    ensures forall p :: p in r <==> p in rows && !p.draft && p.authorId == userId
    ensures NewestFirst(r)
    ensures forall p :: multiset(r)[p] == if !p.draft && p.authorId == userId then multiset(rows)[p] else 0
  {
    var sel := Where(rows, (p: Post) => p.authorId == userId && !p.draft);
    var r := SortNewestFirst(sel);
    SameElements(r, sel);
    r
  }

  /** `sub` occurs in `s`. */
  predicate Contains(s: string, sub: string)
    decreases |s|
  {
    StartsWith(s, sub) || (s != [] && Contains(s[1..], sub))
  }

  /** `column ILIKE '%q%'`, read as a case-insensitive substring test; a NULL
      column never matches. */
  predicate ILikeContains(column: Option<string>, q: string) {
    column.Some? && Contains(ToLower(column.value), ToLower(q))
  }

  predicate SearchHit(p: Post, q: string, tag: Option<string>) {
    && !p.draft
    && (ILikeContains(p.title, q) || ILikeContains(p.content, q))
    && (Truthy(tag) ==> tag.value in p.tags)
  }

  /** `GET /api/posts/search?q=&tag=` */
  function Search(rows: seq<Post>, q: Option<string>, tag: Option<string>): (r: Response<seq<Post>>)
    ensures !Truthy(q) <==> r == Reply(400, "please enter something")
    ensures r.status == 200 ==> r.body.Data? && NewestFirst(r.body.value)
    ensures r.status == 200 ==>
      forall p :: p in r.body.value <==> p in rows && SearchHit(p, q.value, tag)
    ensures r.status == 200 ==>
      forall p :: multiset(r.body.value)[p] == if SearchHit(p, q.value, tag) then multiset(rows)[p] else 0
  {
    if !Truthy(q) then Reply(400, "please enter something")
    else
      var sel := Where(rows, (p: Post) => SearchHit(p, q.value, tag));
      var r := SortNewestFirst(sel);
      SameElements(r, sel);
      Ok(r)
  }

  // ---------------------------------------------------------------------
  // GET /api/posts/:id and the draft guard
  // ---------------------------------------------------------------------

  /** Position of the row with this id, or -1. */
  function IndexOfId(rows: seq<Post>, id: int): (k: int)
    ensures -1 <= k < |rows|
    ensures 0 <= k ==> rows[k].id == id
    ensures k == -1 <==> forall i :: 0 <= i < |rows| ==> rows[i].id != id
  {
    if rows == [] then -1
    else if rows[0].id == id then 0
    else
      var k := IndexOfId(rows[1..], id);
      if k < 0 then -1 else k + 1
  }

  /** `SELECT ... WHERE posts.id = $1`, first row. */
  function FindPost(rows: seq<Post>, id: int): (r: Option<Post>)
    ensures r.Some? ==> r.value in rows && r.value.id == id
    ensures r.None? <==> forall i :: 0 <= i < |rows| ==> rows[i].id != id
  {
    var k := IndexOfId(rows, id);
    if k < 0 then None else Some(rows[k])
  }

  /** The guard on a draft: the header (or '') must split on ' ' into exactly
      "Bearer" and a token, and the token must verify to the author's id. */
  predicate DraftAuthorized(header: Option<string>, authorId: int, signer: Signer, nowMs: nat) {
    var parts := Split(OrEmpty(header), ' ');
    && |parts| == 2
    && parts[0] == "Bearer"
    && match Verify(signer, Some(parts[1]), nowMs)
       case None => false
       case Some(c) => c.id == authorId
  }

  const PostNotFound: Response<Post> := Reply(404, "Post Not Found")

  /** `GET /api/posts/:id` */
  function GetPost(rows: seq<Post>, idParam: string, header: Option<string>, signer: Signer, nowMs: nat)
    : (r: Response<Post>)
    ensures r == PostNotFound || (r.status == 200 && r.body.Data?)
    ensures r.status == 200 ==>
      && ParseInt(idParam).Some?
      && r.body.value in rows && r.body.value.id == ParseInt(idParam).value
      && (r.body.value.draft ==> DraftAuthorized(header, r.body.value.authorId, signer, nowMs))
  {
    match ParseInt(idParam)
    case None => PostNotFound
    case Some(id) =>
      match FindPost(rows, id)
      case None => PostNotFound
      case Some(post) =>
        if post.draft && !DraftAuthorized(header, post.authorId, signer, nowMs) then PostNotFound
        else Ok(post)
  }

  /** The draft guard spelled out: the header is exactly "Bearer " followed by
      a space-free token that verifies to the author's id. */
  lemma DraftAuthorizedMeaning(header: Option<string>, authorId: int, signer: Signer, nowMs: nat)
    ensures DraftAuthorized(header, authorId, signer, nowMs) <==>
      && header.Some? && StartsWith(header.value, "Bearer ")
      && ' ' !in header.value[7..]
      && Verify(signer, Some(header.value[7..]), nowMs).Some?
      && Verify(signer, Some(header.value[7..]), nowMs).value.id == authorId
  {
    var h := OrEmpty(header);
    if |Split(h, ' ') | == 2 && Split(h, ' ')[0] == "Bearer" {
      var t := Split(h, ' ')[1];
      SplitTwo(h, "Bearer", t);
      assert h[7..] == t;
    }
    if header.Some? && StartsWith(header.value, "Bearer ") && ' ' !in header.value[7..] {
      var t := header.value[7..];
      assert header.value == "Bearer" + " " + t;
      SplitTwo(header.value, "Bearer", t);
    }
  }

  /** A published post comes back the same whatever the request's
      Authorization header says. */
  lemma PublishedIgnoresHeader(rows: seq<Post>, idParam: string, h1: Option<string>, h2: Option<string>,
                               signer: Signer, nowMs: nat)
    requires ParseInt(idParam).Some?
    requires FindPost(rows, ParseInt(idParam).value).Some?
    requires !FindPost(rows, ParseInt(idParam).value).value.draft
    ensures GetPost(rows, idParam, h1, signer, nowMs) == GetPost(rows, idParam, h2, signer, nowMs)
    ensures GetPost(rows, idParam, h1, signer, nowMs) == Ok(FindPost(rows, ParseInt(idParam).value).value)
  {
  }

  /** Existence hiding: to anyone but its author a draft answers exactly as it
      would if no post had that id. */
  lemma HiddenDraftLooksMissing(rows: seq<Post>, idParam: string, header: Option<string>,
                                signer: Signer, nowMs: nat)
    requires ParseInt(idParam).Some?
    requires FindPost(rows, ParseInt(idParam).value).Some?
    requires FindPost(rows, ParseInt(idParam).value).value.draft
    requires !DraftAuthorized(header, FindPost(rows, ParseInt(idParam).value).value.authorId, signer, nowMs)
    ensures GetPost(rows, idParam, header, signer, nowMs)
      == GetPost(Where(rows, (p: Post) => p.id != ParseInt(idParam).value), idParam, header, signer, nowMs)
  {
    var id := ParseInt(idParam).value;
    var rest := Where(rows, (p: Post) => p.id != id);
    forall i | 0 <= i < |rest| ensures rest[i].id != id {
      assert rest[i] in rest;
    }
  }

  /** The author, sending the token the server issued them, sees their draft
      until the token expires. */
  lemma AuthorSeesDraft(rows: seq<Post>, idParam: string, signer: Signer, issuedMs: nat, nowMs: nat)
    requires signer.Sound()
    requires ParseInt(idParam).Some?
    requires FindPost(rows, ParseInt(idParam).value).Some?
    requires Seconds(nowMs) < Seconds(issuedMs) + TokenLifetimeSeconds
    ensures var post := FindPost(rows, ParseInt(idParam).value).value;
      GetPost(rows, idParam, Some("Bearer " + Issue(signer, post.authorId, issuedMs)), signer, nowMs) == Ok(post)
  {
    var post := FindPost(rows, ParseInt(idParam).value).value;
    var token := Issue(signer, post.authorId, issuedMs);
    var header := "Bearer " + token;
    var c := Claims(post.authorId, Seconds(issuedMs), Seconds(issuedMs) + TokenLifetimeSeconds);
    assert ' ' !in signer.sign(c);
    IssueThenVerify(signer, post.authorId, issuedMs, nowMs);
    assert header[7..] == token;
    DraftAuthorizedMeaning(Some(header), post.authorId, signer, nowMs);
  }

  // ---------------------------------------------------------------------
  // The SET list of PUT /api/posts/:id
  // ---------------------------------------------------------------------

  datatype PostColumn = TitleCol | ContentCol | DraftCol | TagsCol

  /** What the database does with `SET c1 = $k1, c2 = $k2, ...` on one row. */
  function ApplyPostSet(p: Post, fields: seq<Assignment<PostColumn>>, params: seq<SqlValue>): Post {
    ApplyValues(p, AssignedValue(fields, params, TitleCol), AssignedValue(fields, params, ContentCol),
                AssignedValue(fields, params, DraftCol), AssignedValue(fields, params, TagsCol))
  }

  /** A row with the given column values stored; a column given no value of
      its type keeps its old one. */
  function ApplyValues(p: Post, title: Option<SqlValue>, content: Option<SqlValue>, draft: Option<SqlValue>,
                       tags: Option<SqlValue>): Post {
    p.(title := match title
                case Some(SqlText(s)) => Some(s)
                case _ => p.title,
       content := match content
                  case Some(SqlText(s)) => Some(s)
                  case _ => p.content,
       draft := match draft
                case Some(SqlBool(b)) => b
                case _ => p.draft,
       tags := match tags
               case Some(SqlTextArray(a)) => a
               case _ => p.tags)
  }

  /** The post as `PUT /:id` means to leave it: every field the body defines
      replaced (draft coerced with `!!`, tags normalised), the others kept,
      and `updated_at` set to now. */
  function Edited(p: Post, title: Option<string>, content: Option<string>,
                  draft: Option<Json>, tags: Option<Json>, nowMs: int): Post {
    p.(title := if title.Some? then title else p.title,
       content := if content.Some? then content else p.content,
       draft := if draft.Some? then JsTruthy(draft.value) else p.draft,
       tags := if tags.Some? then NormalizeTags(tags) else p.tags,
       updatedAt := nowMs)
  }

  /** The parameter `PUT /:id` binds for a column the body defines. */
  function PostParam(c: PostColumn, title: Option<string>, content: Option<string>,
                     draft: Option<Json>, tags: Option<Json>): SqlValue {
    match c
    case TitleCol => SqlText(OrDefault(title))
    case ContentCol => SqlText(OrDefault(content))
    case DraftCol => SqlBool(FieldTruthy(draft))
    case TagsCol => SqlTextArray(NormalizeTags(tags))
  }

  /** The columns `PUT /:id` sets: those the body defines, in the order
      title, content, draft, tags. */
  function SetColumns(title: Option<string>, content: Option<string>, draft: Option<Json>,
                      tags: Option<Json>): seq<PostColumn> {
    (if title.Some? then [TitleCol] else []) + (if content.Some? then [ContentCol] else [])
    + (if draft.Some? then [DraftCol] else []) + (if tags.Some? then [TagsCol] else [])
  }

  /** The parameters `PUT /:id` binds for the columns `cols`, in order. */
  function BoundParams(cols: seq<PostColumn>, title: Option<string>, content: Option<string>,
                       draft: Option<Json>, tags: Option<Json>): (r: seq<SqlValue>)
    ensures |r| == |cols|
    ensures forall k :: 0 <= k < |cols| ==> r[k] == PostParam(cols[k], title, content, draft, tags)
  {
    seq(|cols|, k requires 0 <= k < |cols| => PostParam(cols[k], title, content, draft, tags))
  }

  lemma BoundParamsSnoc(cols: seq<PostColumn>, c: PostColumn, title: Option<string>, content: Option<string>,
                        draft: Option<Json>, tags: Option<Json>)
    ensures BoundParams(cols + [c], title, content, draft, tags)
      == BoundParams(cols, title, content, draft, tags) + [PostParam(c, title, content, draft, tags)]
  {
    var a := BoundParams(cols + [c], title, content, draft, tags);
    var b := BoundParams(cols, title, content, draft, tags) + [PostParam(c, title, content, draft, tags)];
    assert |a| == |b|;
    forall k | 0 <= k < |a| ensures a[k] == b[k] {
      if k < |cols| { assert (cols + [c])[k] == cols[k]; }
    }
  }

  /** The field builder of `PUT /:id`: one `SET` item per defined body field,
      in the order title, content, draft, tags, numbered $1..$n, with the
      value bound for each, then the post id as $n+1 and the caller's id as
      $n+2. */
  method BuildPostUpdate(title: Option<string>, content: Option<string>, draft: Option<Json>,
                         tags: Option<Json>, postId: int, userId: int)
    returns (fields: seq<Assignment<PostColumn>>, params: seq<SqlValue>, idIndex: nat, authorIndex: nat)
    ensures fields == Numbering(SetColumns(title, content, draft, tags))
    ensures params == BoundParams(SetColumns(title, content, draft, tags), title, content, draft, tags)
                      + [SqlInt(postId), SqlInt(userId)]
    ensures idIndex == |fields| + 1 && authorIndex == |fields| + 2
  {
    fields, params := [], [];
    var idx := 1;
    ghost var cols: seq<PostColumn> := [];
    fields, params, idx := PushIfDefined(title.Some?, TitleCol, PostParam(TitleCol, title, content, draft, tags),
                                         fields, params, idx,
                                         cols, title, content, draft, tags);
    cols := if title.Some? then [TitleCol] else [];
    fields, params, idx := PushIfDefined(content.Some?, ContentCol, PostParam(ContentCol, title, content, draft, tags),
                                         fields, params, idx,
                                         cols, title, content, draft, tags);
    cols := cols + (if content.Some? then [ContentCol] else []);
    fields, params, idx := PushIfDefined(draft.Some?, DraftCol, PostParam(DraftCol, title, content, draft, tags),
                                         fields, params, idx,
                                         cols, title, content, draft, tags);
    cols := cols + (if draft.Some? then [DraftCol] else []);
    fields, params, idx := PushIfDefined(tags.Some?, TagsCol, PostParam(TagsCol, title, content, draft, tags),
                                         fields, params, idx,
                                         cols, title, content, draft, tags);
    cols := cols + (if tags.Some? then [TagsCol] else []);
    params := params + [SqlInt(postId)];
    idIndex := idx;
    idx := idx + 1;
    params := params + [SqlInt(userId)];
    authorIndex := idx;
  }

  /** The string a present field carries. */
  function OrDefault(s: Option<string>): string {
    if s.Some? then s.value else ""
  }

  /** One `if (field !== undefined) { fields.push(`col = $${idx++}`); params.push(v); }`
      of the builder: the items so far name `cols`, and a defined field names
      one more. */
  method PushIfDefined(defined: bool, c: PostColumn, v: SqlValue,
                       fields: seq<Assignment<PostColumn>>, params: seq<SqlValue>, idx: nat,
                       ghost cols: seq<PostColumn>, ghost title: Option<string>, ghost content: Option<string>,
                       ghost draft: Option<Json>, ghost tags: Option<Json>)
    returns (fields': seq<Assignment<PostColumn>>, params': seq<SqlValue>, idx': nat)
    requires fields == Numbering(cols) && params == BoundParams(cols, title, content, draft, tags)
    requires idx == |cols| + 1
    requires defined ==> v == PostParam(c, title, content, draft, tags)
    ensures fields' == Numbering(cols + (if defined then [c] else []))
    ensures params' == BoundParams(cols + (if defined then [c] else []), title, content, draft, tags)
    ensures idx' == |fields'| + 1
  {
    fields', params', idx' := fields, params, idx;
    if defined {
      NumberingSnoc(cols, c);
      BoundParamsSnoc(cols, c, title, content, draft, tags);
      fields' := fields' + [Assignment(c, idx')];
      idx' := idx' + 1;
      params' := params' + [v];
    } else {
      assert cols + [] == cols;
    }
  }

  /** The list names a column exactly when the body defines its field. */
  lemma SetColumnsMembers(title: Option<string>, content: Option<string>, draft: Option<Json>, tags: Option<Json>)
    ensures TitleCol in SetColumns(title, content, draft, tags) <==> title.Some?
    ensures ContentCol in SetColumns(title, content, draft, tags) <==> content.Some?
    ensures DraftCol in SetColumns(title, content, draft, tags) <==> draft.Some?
    ensures TagsCol in SetColumns(title, content, draft, tags) <==> tags.Some?
  {
    var a := if title.Some? then [TitleCol] else [];
    var b := if content.Some? then [ContentCol] else [];
    var c := if draft.Some? then [DraftCol] else [];
    var d := if tags.Some? then [TagsCol] else [];
    assert SetColumns(title, content, draft, tags) == a + b + c + d;
    forall x: PostColumn ensures x in a + b + c + d <==> x in a || x in b || x in c || x in d {
    }
  }

  /** The body field behind a column is present. */
  predicate Defined(c: PostColumn, title: Option<string>, content: Option<string>, draft: Option<Json>,
                    tags: Option<Json>) {
    match c
    case TitleCol => title.Some?
    case ContentCol => content.Some?
    case DraftCol => draft.Some?
    case TagsCol => tags.Some?
  }

  /** The value a body gives a column: the bound parameter when the field is
      present. */
  function BodyValue(c: PostColumn, title: Option<string>, content: Option<string>, draft: Option<Json>,
                     tags: Option<Json>): Option<SqlValue> {
    if Defined(c, title, content, draft, tags) then Some(PostParam(c, title, content, draft, tags)) else None
  }

  /** What the list built for a body gives a column. */
  lemma SetValue(c: PostColumn, title: Option<string>, content: Option<string>, draft: Option<Json>,
                 tags: Option<Json>, params: seq<SqlValue>, extra: seq<SqlValue>)
    requires params == BoundParams(SetColumns(title, content, draft, tags), title, content, draft, tags) + extra
    ensures AssignedValue(Numbering(SetColumns(title, content, draft, tags)), params, c)
      == BodyValue(c, title, content, draft, tags)
  {
    var cols := SetColumns(title, content, draft, tags);
    SetColumnsMembers(title, content, draft, tags);
    AssignedValueOf(cols, BoundParams(cols, title, content, draft, tags), extra, c);
  }

  /** Storing the values a body gives is the edit the route means. */
  lemma ApplyBody(p: Post, title: Option<string>, content: Option<string>, draft: Option<Json>,
                  tags: Option<Json>, nowMs: int)
    ensures ApplyValues(p, BodyValue(TitleCol, title, content, draft, tags),
                        BodyValue(ContentCol, title, content, draft, tags),
                        BodyValue(DraftCol, title, content, draft, tags),
                        BodyValue(TagsCol, title, content, draft, tags)).(updatedAt := nowMs)
      == Edited(p, title, content, draft, tags, nowMs)
  {
  }

  /** Run against a row, the SET list that `BuildPostUpdate` produces
      changes exactly the fields the body defines, to the coerced values. */
  lemma PostSetMeaning(p: Post, title: Option<string>, content: Option<string>, draft: Option<Json>,
                       tags: Option<Json>, fields: seq<Assignment<PostColumn>>, params: seq<SqlValue>,
                       extra: seq<SqlValue>, nowMs: int)
    requires fields == Numbering(SetColumns(title, content, draft, tags))
    requires params == BoundParams(SetColumns(title, content, draft, tags), title, content, draft, tags) + extra
    ensures ApplyPostSet(p, fields, params).(updatedAt := nowMs) == Edited(p, title, content, draft, tags, nowMs)
  {
    SetValue(TitleCol, title, content, draft, tags, params, extra);
    SetValue(ContentCol, title, content, draft, tags, params, extra);
    SetValue(DraftCol, title, content, draft, tags, params, extra);
    SetValue(TagsCol, title, content, draft, tags, params, extra);
    ApplyBody(p, title, content, draft, tags, nowMs);
  }

  // ---------------------------------------------------------------------
  // The posts table and its writes
  // ---------------------------------------------------------------------

  class PostTable {
    var rows: seq<Post>
    var nextId: int

    /** Ids are unique (SERIAL primary key) and below the next one handed out. */
    ghost predicate Valid()
      reads this
    {
      && (forall i, j :: 0 <= i < j < |rows| ==> rows[i].id != rows[j].id)
      && (forall i :: 0 <= i < |rows| ==> rows[i].id < nextId)
    }

    constructor ()
      ensures Valid() && rows == []
    {
      rows := [];
      nextId := 1;
    }

    /** `POST /api/posts`: inserts one row, a draft only when `!!draft`, with
        normalised tags. */
    method Create(title: Option<string>, content: Option<string>, draft: Option<Json>,
                  tags: Option<Json>, authorId: int, nowMs: int)
      returns (r: Response<Post>)
      requires Valid()
      modifies this
      ensures Valid()
      ensures rows == old(rows) + [Post(old(nextId), title, content, authorId,
                                          FieldTruthy(draft), NormalizeTags(tags), nowMs, nowMs)]
      ensures r == Ok(rows[|rows| - 1])
    {
      var post := Post(nextId, title, content, authorId, FieldTruthy(draft), NormalizeTags(tags), nowMs, nowMs);
      rows := rows + [post];
      nextId := nextId + 1;
      r := Ok(post);
    }

    /** `UPDATE ... RETURNING *` on one row: the row keeps its id. */
    method Replace(k: int, post: Post)
      requires Valid() && 0 <= k < |rows| && post.id == rows[k].id
      modifies this
      ensures Valid() && rows == old(rows)[k := post] && nextId == old(nextId)
    {
      rows := rows[k := post];
    }

    /** `PUT /api/posts/:id` */
    method Update(idParam: string, userId: int, title: Option<string>, content: Option<string>,
                  draft: Option<Json>, tags: Option<Json>, nowMs: int)
      returns (r: Response<Post>)
      requires Valid()
      modifies this
      ensures Valid() && nextId == old(nextId)
      ensures ParseInt(idParam).None? ==>
        r == Reply(404, "Post not found or not authorized") && rows == old(rows)
      ensures ParseInt(idParam).Some? && title.None? && content.None? && draft.None? && tags.None? ==>
        r == Reply(400, "No fields to update") && rows == old(rows)
      ensures ParseInt(idParam).Some? && (title.Some? || content.Some? || draft.Some? || tags.Some?) ==>
        var k := IndexOfId(old(rows), ParseInt(idParam).value);
        if 0 <= k && old(rows)[k].authorId == userId then
          rows == old(rows)[k := Edited(old(rows)[k], title, content, draft, tags, nowMs)]
          && r == Ok(rows[k])
        else
          rows == old(rows) && r == Reply(404, "Post not found or not authorized")
    {
      var parsed := ParseInt(idParam);
      if parsed.None? {
        return Reply(404, "Post not found or not authorized");
      }
      var fields, params, idIndex, authorIndex := BuildPostUpdate(title, content, draft, tags, parsed.value, userId);
      if |fields| == 0 {
        return Reply(400, "No fields to update");
      }
      var whereId := Param(params, idIndex).i;
      var whereAuthor := Param(params, authorIndex).i;
      var k := IndexOfId(rows, whereId);
      if 0 <= k && rows[k].authorId == whereAuthor {
        PostSetMeaning(rows[k], title, content, draft, tags, fields, params, [SqlInt(parsed.value), SqlInt(userId)], nowMs);
        var updated := ApplyPostSet(rows[k], fields, params).(updatedAt := nowMs);
        Replace(k, updated);
        r := Ok(updated);
      } else {
        r := Reply(404, "Post not found or not authorized");
      }
    }

    /** `PUT /api/posts/:id/publish`: clears `draft` on the caller's own post;
        a post that is already published is published again. */
    method Publish(idParam: string, userId: int, nowMs: int) returns (r: Response<Post>)
      requires Valid()
      modifies this
      ensures Valid() && nextId == old(nextId)
      ensures ParseInt(idParam).None? ==> r == Reply(404, "Draft not found") && rows == old(rows)
      ensures ParseInt(idParam).Some? ==>
        var k := IndexOfId(old(rows), ParseInt(idParam).value);
        if 0 <= k && old(rows)[k].authorId == userId then
          rows == old(rows)[k := old(rows)[k].(draft := false, updatedAt := nowMs)] && r == Ok(rows[k])
        else
          rows == old(rows) && r == Reply(404, "Draft not found")
    {
      var parsed := ParseInt(idParam);
      if parsed.None? {
        return Reply(404, "Draft not found");
      }
      var k := IndexOfId(rows, parsed.value);
      if 0 <= k && rows[k].authorId == userId {
        var published := rows[k].(draft := false, updatedAt := nowMs);
        Replace(k, published);
        r := Ok(published);
      } else {
        r := Reply(404, "Draft not found");
      }
    }
  }
}
