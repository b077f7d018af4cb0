/** The JSON values a request body carries, their JavaScript coercions
    (`!!v` and `String(v)`), and the tag normalisation that
    `POST /api/posts` and `PUT /api/posts/:id` apply to the `tags` field. */
module PostTags {
  import opened Base
  import opened JsText

  /** A parsed JSON value. Numbers are integers here. */
  datatype Json = JNull | JBool(b: bool) | JNum(n: int) | JStr(s: string) | JArr(items: seq<Json>) | JObject

  /** `!!v` */
  predicate JsTruthy(v: Json) {
    match v
    case JNull => false
    case JBool(b) => b
    case JNum(n) => n != 0
    case JStr(s) => s != ""
    case JArr(_) => true
    case JObject => true
  }

  /** `!!field` for a body field that may be missing (`undefined` is falsy). */
  predicate FieldTruthy(v: Option<Json>) {
    v.Some? && JsTruthy(v.value)
  }

  /** `String(v)`. An array prints as its elements joined with ",", a `null`
      element printing as the empty string. */
  function JsString(v: Json): (r: string)
    ensures v.JStr? ==> r == v.s
    ensures v.JNum? ==> ParseInt(r) == Some(v.n)
    decreases v
  {
    match v
    case JNull => "null"
    case JBool(b) => if b then "true" else "false"
    case JNum(n) => ParseIntOfIntToString(n); IntToString(n)
    case JStr(s) => s
    case JArr(xs) =>
      Join(seq(|xs|, i requires 0 <= i < |xs| => if xs[i].JNull? then "" else JsString(xs[i])), ',')
    case JObject => "[object Object]"
  }

  /** `.map(t => t.trim())` */
  function TrimAll(xs: seq<string>): (r: seq<string>)
    ensures |r| == |xs| && forall i :: 0 <= i < |xs| ==> r[i] == Trim(xs[i])
  {
    seq(|xs|, i requires 0 <= i < |xs| => Trim(xs[i]))
  }

  /** `.map(t => t.toLowerCase())` */
  function LowerAll(xs: seq<string>): (r: seq<string>)
    ensures |r| == |xs| && forall i :: 0 <= i < |xs| ==> r[i] == ToLower(xs[i])
  {
    seq(|xs|, i requires 0 <= i < |xs| => ToLower(xs[i]))
  }

  /** The first step: an array is mapped through `String`; a string that is not
      blank is split on ",", each piece trimmed and the empty pieces dropped;
      anything else (a missing field included) gives no tags. */
  function RawTags(tags: Option<Json>): (raw: seq<string>)
    ensures tags.Some? && tags.value.JArr? ==> |raw| == |tags.value.items|
    ensures tags.Some? && tags.value.JStr? ==> forall i :: 0 <= i < |raw| ==> raw[i] != ""
    ensures tags.None? || !(tags.value.JArr? || tags.value.JStr?) ==> raw == []
  {
    match tags
    case Some(JArr(xs)) => seq(|xs|, i requires 0 <= i < |xs| => JsString(xs[i]))
    case Some(JStr(s)) => if Trim(s) != "" then NonEmpty(TrimAll(Split(s, ','))) else []
    case _ => []
  }

  /** The whole normalisation: lower-case, drop empties, drop repeats. */
  function NormalizeTags(tags: Option<Json>): (r: seq<string>)
    ensures forall i :: 0 <= i < |r| ==> r[i] != "" && IsLower(r[i])
    ensures NoDuplicates(r)
  {
    Unique(NonEmpty(LowerAll(RawTags(tags))))
  }

  /** A tag is kept exactly when it is the lower-casing of some raw tag and is
      not empty. */
  lemma NormalizeTagsMembers(tags: Option<Json>, t: string)
    ensures t in NormalizeTags(tags) <==>
      t != "" && exists i :: 0 <= i < |RawTags(tags)| && ToLower(RawTags(tags)[i]) == t
  {
    var low := LowerAll(RawTags(tags));
    var ne := NonEmpty(low);
    if t in NormalizeTags(tags) {
      var k :| 0 <= k < |ne| && ne[k] == t;
      assert t in low;
    }
    if t != "" && exists i :: 0 <= i < |RawTags(tags)| && ToLower(RawTags(tags)[i]) == t {
      var i :| 0 <= i < |RawTags(tags)| && ToLower(RawTags(tags)[i]) == t;
      assert low[i] == t;
      assert t in ne;
      var k :| 0 <= k < |ne| && ne[k] == t;
      assert t in Unique(ne);
    }
  }

  /** The tags keep the order in which they first appear. */
  lemma NormalizeTagsOrder(tags: Option<Json>)
    ensures var pre := NonEmpty(LowerAll(RawTags(tags)));
      forall i, j :: 0 <= i < j < |NormalizeTags(tags)| ==>
        FirstIndex(pre, NormalizeTags(tags)[i]) < FirstIndex(pre, NormalizeTags(tags)[j])
  {
    UniqueFirstOccurrenceOrder(NonEmpty(LowerAll(RawTags(tags))));
  }

  function AsJsonArray(ts: seq<string>): Json {
    JArr(seq(|ts|, i requires 0 <= i < |ts| => JStr(ts[i])))
  }

  lemma {:induction false} NonEmptyOfNonEmpty(xs: seq<string>)
    requires forall i :: 0 <= i < |xs| ==> xs[i] != ""
    ensures NonEmpty(xs) == xs
  {
    if xs != [] {
      NonEmptyOfNonEmpty(xs[1..]);
    }
  }

  /** Sending the normalised tags back (as the edit page does) changes
      nothing: normalisation is idempotent. */
  lemma NormalizeTagsIdempotent(tags: Option<Json>)
    ensures NormalizeTags(Some(AsJsonArray(NormalizeTags(tags)))) == NormalizeTags(tags)
  {
    var r := NormalizeTags(tags);
    var raw := RawTags(Some(AsJsonArray(r)));
    assert raw == r;
    var low := LowerAll(raw);
    forall i | 0 <= i < |r| ensures low[i] == r[i] {
      ToLowerOfLower(r[i]);
    }
    assert low == r;
    NonEmptyOfNonEmpty(r);
    UniqueOfNoDuplicates(r);
  }

  /** From a comma-separated string every tag is trimmed and holds no comma. */
  lemma StringTagsTrimmed(s: string, t: string)
    requires t in NormalizeTags(Some(JStr(s)))
    ensures Trim(t) == t && ',' !in t
  {
    NormalizeTagsMembers(Some(JStr(s)), t);
    var raw := RawTags(Some(JStr(s)));
    var i :| 0 <= i < |raw| && ToLower(raw[i]) == t;
    var parts := Split(s, ',');
    var pieces := TrimAll(parts);
    assert raw == NonEmpty(pieces);
    assert raw[i] in pieces;
    var k :| 0 <= k < |pieces| && pieces[k] == raw[i];
    PieceTrimmed(parts[k]);
  }

  /** One piece between commas, trimmed and lower-cased, is trimmed and holds
      no comma. */
  lemma PieceTrimmed(w: string)
    requires ',' !in w
    ensures Trim(ToLower(Trim(w))) == ToLower(Trim(w)) && ',' !in ToLower(Trim(w))
  {
    TrimIdempotent(w);
    TrimIsSlice(w);
    LowerKeepsTrim(Trim(w));
  }

  lemma TrimIsSlice(w: string)
    ensures forall c :: c in Trim(w) ==> c in w
  {
    var a := LeadingWhitespace(w);
    SliceMembers(w, a, a + |Trim(w)|);
  }

  lemma SliceMembers(w: string, a: nat, b: nat)
    requires a <= b <= |w|
    ensures forall c :: c in w[a..b] ==> c in w
  {
    forall c | c in w[a..b] ensures c in w {
      var k :| 0 <= k < b - a && w[a..b][k] == c;
      assert w[a + k] == c;
    }
  }

  lemma LowerCharClass(c: char)
    ensures IsWhitespace(LowerChar(c)) == IsWhitespace(c)
    ensures LowerChar(c) == ',' <==> c == ','
  {
  }

  /** Lower-casing a trimmed, comma-free string keeps it trimmed and
      comma-free: only ASCII letters change. */
  lemma LowerKeepsTrim(x: string)
    requires Trim(x) == x
    ensures Trim(ToLower(x)) == ToLower(x)
    ensures ',' in ToLower(x) ==> ',' in x
  {
    var y := ToLower(x);
    if y != [] {
      LowerCharClass(x[0]);
      LowerCharClass(x[|x| - 1]);
      assert TrimStart(y) == y;
      assert TrimEnd(y) == y;
    }
    if ',' in y {
      var k :| 0 <= k < |y| && y[k] == ',';
      LowerCharClass(x[k]);
    }
  }
}
