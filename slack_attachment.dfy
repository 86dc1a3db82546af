/**
 * SlackAttachment: one rich-content block of a message. It is built by
 * chained setters that overwrite its fields in place and serialized on
 * demand by GenerateJSON.
 *
 * The serialized form is specified by `AttachmentJson`: the clauses of
 * `Members` joined by `,` inside braces. GenerateJSON instead appends a `,`
 * after every clause and removes the last character; it is proved to give
 * the same text.
 */
module Attachment {
  import opened Text
  import opened SlackHelper

  /** A C# `int`. */
  type Int32 = x: int | -0x8000_0000 <= x < 0x8000_0000

  /** One row of the attachment's field table (the nested `SlackField` struct). */
  datatype SlackField = SlackField(title: string, text: string, isShort: bool)

  /** Everything a SlackAttachment holds. */
  datatype AttachmentData = AttachmentData(
    fallback: string, text: string, timestamp: Int32,
    pretext: string, color: string,
    imageUrl: string, thumbUrl: string,
    title: string, titleLink: string,
    footer: string, footerIcon: string,
    authorName: string, authorLink: string, authorIcon: string,
    fields: seq<SlackField>)

  /** A newly constructed attachment: text, fallback and time stamp, nothing else. */
  function NewAttachment(text: string, fallback: string, timestamp: Int32): AttachmentData
  {
    AttachmentData(fallback, text, timestamp, "", "", "", "", "", "", "", "", "", "", "", [])
  }

  // ---------------------------------------------------------------------
  // The serialized form

  /** `{"title": …,"value": …,"short": …}` for one field. */
  function FieldJson(f: SlackField): string
  {
    "{" + (SimpleJSONString("title", f.title) + "," + SimpleJSONString("value", f.text) + ","
           + SimpleJSONValue("short", Bool(f.isShort))) + "}"
  }

  /** The `fields` array: the fields in the order they were added, separated by `, `. */
  function FieldsText(fs: seq<SlackField>): string
  {
    "[" + Join(", ", Map(FieldJson, fs)) + "]"
  }

  /** The keys every attachment carries, in order. */
  const RequiredKeys: seq<string> := ["fallback", "text", "ts", "fields"]

  /** The keys emitted only when their value is non-empty, in the order they are tested. */
  const OptionalKeys: seq<string> := ["color", "pretext", "image_url", "thumb_url", "title", "title_link",
                                      "footer", "footer_icon", "author_name", "author_link", "author_icon"]

  function RequiredMembers(d: AttachmentData): seq<Member>
  {
    [StringMember("fallback", d.fallback), StringMember("text", d.text),
     ValueMember("ts", Int(d.timestamp)), ValueMember("fields", Raw(FieldsText(d.fields)))]
  }

  /** The four required clauses, each followed by a comma, as GenerateJSON appends them first. */
  lemma RequiredPrefix(d: AttachmentData)
    ensures Terminated(",", RequiredMembers(d)) ==
      SimpleJSONString("fallback", d.fallback) + "," + SimpleJSONString("text", d.text) + ","
      + SimpleJSONValue("ts", Int(d.timestamp)) + "," + SimpleJSONValue("fields", Raw(FieldsText(d.fields))) + ","
  {
    var ms := RequiredMembers(d);
    var a, b, c, e := ms[0], ms[1], ms[2], ms[3];
    TerminatedSingle(",", a);
    TerminatedSnoc(",", [a], b);
    assert [a] + [b] == [a, b];
    TerminatedSnoc(",", [a, b], c);
    assert [a, b] + [c] == [a, b, c];
    TerminatedSnoc(",", [a, b, c], e);
    assert [a, b, c] + [e] == ms;
  }

  /** Each optional key with the string that decides whether it is emitted. */
  function OptionalPairs(d: AttachmentData): seq<(string, string)>
  {
    [("color", d.color), ("pretext", d.pretext), ("image_url", d.imageUrl), ("thumb_url", d.thumbUrl),
     ("title", d.title), ("title_link", d.titleLink), ("footer", d.footer), ("footer_icon", d.footerIcon),
     ("author_name", d.authorName), ("author_link", d.authorLink), ("author_icon", d.authorIcon)]
  }

  /** The clause for `key`, present only when `value` is non-empty. */
  function Optional(key: string, value: string): seq<Member>
  {
    if value != "" then [StringMember(key, value)] else []
  }

  /** `base` followed by the pairs whose value is non-empty, as string members, in order. */
  function AppendSet(base: seq<Member>, ps: seq<(string, string)>): seq<Member>
  {
    if ps == [] then base else AppendSet(base, ps[..|ps| - 1]) + Optional(ps[|ps| - 1].0, ps[|ps| - 1].1)
  }

  lemma AppendSetTake(base: seq<Member>, ps: seq<(string, string)>, k: nat)
    requires 0 < k <= |ps|
    ensures AppendSet(base, ps[..k]) == AppendSet(base, ps[..k - 1]) + Optional(ps[k - 1].0, ps[k - 1].1)
  {
    assert ps[..k][..k - 1] == ps[..k - 1];
  }

  /** The clauses of the serialized attachment, in order. */
  function Members(d: AttachmentData): seq<Member>
  {
    AppendSet(RequiredMembers(d), OptionalPairs(d))
  }

  /** The optional clauses, one `if` of GenerateJSON after another. */
  lemma {:induction false} OptionalChain(d: AttachmentData)
    ensures Members(d) ==
      RequiredMembers(d) + Optional("color", d.color) + Optional("pretext", d.pretext)
      + Optional("image_url", d.imageUrl) + Optional("thumb_url", d.thumbUrl)
      + Optional("title", d.title) + Optional("title_link", d.titleLink)
      + Optional("footer", d.footer) + Optional("footer_icon", d.footerIcon)
      + Optional("author_name", d.authorName) + Optional("author_link", d.authorLink)
      + Optional("author_icon", d.authorIcon)
  {
    var ps, base := OptionalPairs(d), RequiredMembers(d);
    assert ps[..0] == [];
    AppendSetTake(base, ps, 1);
    AppendSetTake(base, ps, 2);
    AppendSetTake(base, ps, 3);
    AppendSetTake(base, ps, 4);
    AppendSetTake(base, ps, 5);
    AppendSetTake(base, ps, 6);
    AppendSetTake(base, ps, 7);
    AppendSetTake(base, ps, 8);
    AppendSetTake(base, ps, 9);
    AppendSetTake(base, ps, 10);
    AppendSetTake(base, ps, 11);
    TakeAll(ps);
  }

  /** The JSON object GenerateJSON produces for an attachment holding `d`. */
  function AttachmentJson(d: AttachmentData): string
  {
    ObjectText(",", Members(d))
  }

  // ---------------------------------------------------------------------
  // Properties of the serialized form

  /** Some clause of `ms` has key `k`. */
  predicate HasKey(ms: seq<Member>, k: string)
  {
    exists j :: 0 <= j < |ms| && ms[j].key == k
  }

  /** No two clauses of `ms` share a key. */
  predicate DistinctKeys(ms: seq<Member>)
  {
    forall a, b :: 0 <= a < b < |ms| ==> ms[a].key != ms[b].key
  }

  /** No two pairs of `ps` share a key, and none uses a key of `base`. */
  predicate FreshKeys(base: seq<Member>, ps: seq<(string, string)>)
  {
    (forall a, b :: 0 <= a < b < |ps| ==> ps[a].0 != ps[b].0) &&
    (forall a, b :: 0 <= a < |base| && 0 <= b < |ps| ==> base[a].key != ps[b].0)
  }

  /** The clauses already in `base` stay first and unchanged. */
  lemma {:induction false} AppendSetKeepsBase(base: seq<Member>, ps: seq<(string, string)>)
    ensures |AppendSet(base, ps)| >= |base| && AppendSet(base, ps)[..|base|] == base
  {
    if ps != [] {
      AppendSetKeepsBase(base, ps[..|ps| - 1]);
    }
  }

  /** Every appended clause is a string clause for one of the pairs, holding that pair's non-empty value. */
  lemma {:induction false} AppendSetSource(base: seq<Member>, ps: seq<(string, string)>, m: Member)
    requires m in AppendSet(base, ps)
    ensures m in base || exists i :: 0 <= i < |ps| && m == StringMember(ps[i].0, ps[i].1) && ps[i].1 != ""
  {
    if ps != [] {
      var init := ps[..|ps| - 1];
      if m in AppendSet(base, init) {
        AppendSetSource(base, init, m);
        if m !in base {
          var i :| 0 <= i < |init| && m == StringMember(init[i].0, init[i].1) && init[i].1 != "";
          assert ps[i] == init[i];
        }
      } else {
        assert m == StringMember(ps[|ps| - 1].0, ps[|ps| - 1].1) && ps[|ps| - 1].1 != "";
      }
    }
  }

  /** A pair with a non-empty value always gets its clause. */
  lemma {:induction false} AppendSetHasSet(base: seq<Member>, ps: seq<(string, string)>, i: nat)
    requires i < |ps| && ps[i].1 != ""
    ensures StringMember(ps[i].0, ps[i].1) in AppendSet(base, ps)
  {
    if i < |ps| - 1 {
      AppendSetHasSet(base, ps[..|ps| - 1], i);
    }
  }

  /** A clause of `AppendSet(base, ps)` with the key of pair `i` is that pair's own clause. */
  lemma KeyOfAppended(base: seq<Member>, ps: seq<(string, string)>, m: Member, i: nat)
    requires FreshKeys(base, ps) && i < |ps| && m in AppendSet(base, ps)
    ensures m.key == ps[i].0 ==> m == StringMember(ps[i].0, ps[i].1) && ps[i].1 != ""
  {
    AppendSetSource(base, ps, m);
    if m in base {
      var b :| 0 <= b < |base| && base[b] == m;
      assert base[b].key != ps[i].0;
    } else {
      var k :| 0 <= k < |ps| && m == StringMember(ps[k].0, ps[k].1) && ps[k].1 != "";
      if k < i {
        assert ps[k].0 != ps[i].0;
      } else if i < k {
        assert ps[i].0 != ps[k].0;
      }
    }
  }

  /** Appending clauses with fresh, distinct keys keeps the keys distinct. */
  lemma {:induction false} AppendSetDistinct(base: seq<Member>, ps: seq<(string, string)>)
    requires DistinctKeys(base) && FreshKeys(base, ps)
    ensures DistinctKeys(AppendSet(base, ps))
  {
    if ps != [] {
      var init := ps[..|ps| - 1];
      var last := ps[|ps| - 1];
      assert FreshKeys(base, init);
      AppendSetDistinct(base, init);
      var ms := AppendSet(base, init);
      if last.1 != "" {
        assert AppendSet(base, ps) == ms + [StringMember(last.0, last.1)];
        forall j | 0 <= j < |ms|
          ensures ms[j].key != last.0
        {
          assert ms[j] in ms;
          AppendSetSource(base, init, ms[j]);
          if ms[j] in base {
            var b :| 0 <= b < |base| && base[b] == ms[j];
            assert base[b].key != ps[|ps| - 1].0;
          } else {
            var k :| 0 <= k < |init| && ms[j] == StringMember(init[k].0, init[k].1) && init[k].1 != "";
            assert ps[k].0 != ps[|ps| - 1].0;
          }
        }
      } else {
        assert AppendSet(base, ps) == ms + [];
      }
    }
  }

  /** The last clause is the last of `base` or an appended string clause. */
  lemma {:induction false} AppendSetLast(base: seq<Member>, ps: seq<(string, string)>)
    requires base != []
    ensures var ms := AppendSet(base, ps); ms != [] && (ms[|ms| - 1] == base[|base| - 1] || ms[|ms| - 1].StringMember?)
  {
    if ps != [] {
      AppendSetLast(base, ps[..|ps| - 1]);
    }
  }

  /** The keys of an attachment's candidate clauses are pairwise different. */
  lemma AttachmentKeysFresh(d: AttachmentData)
    ensures DistinctKeys(RequiredMembers(d)) && FreshKeys(RequiredMembers(d), OptionalPairs(d))
  {
  }

  /** The serialized attachment always starts with fallback, text, ts and fields, in that order. */
  lemma MembersBeginWithRequired(d: AttachmentData)
    ensures |Members(d)| >= 4 && Members(d)[..4] == RequiredMembers(d)
    ensures Keys(Members(d))[..4] == RequiredKeys
  {
    AppendSetKeepsBase(RequiredMembers(d), OptionalPairs(d));
    assert Keys(Members(d))[..4] == Keys(RequiredMembers(d));
  }

  /** No key appears twice in a serialized attachment. */
  lemma MemberKeysDistinct(d: AttachmentData)
    ensures DistinctKeys(Members(d))
  {
    AttachmentKeysFresh(d);
    AppendSetDistinct(RequiredMembers(d), OptionalPairs(d));
  }

  /**
   * Each optional key is emitted exactly when its own value is non-empty,
   * independently of the others, and then it carries that value.
   */
  lemma OptionalKeyIffSet(d: AttachmentData, i: nat)
    requires i < |OptionalKeys|
    ensures HasKey(Members(d), OptionalKeys[i]) <==> OptionalPairs(d)[i].1 != ""
    ensures OptionalPairs(d)[i].1 != "" ==> StringMember(OptionalKeys[i], OptionalPairs(d)[i].1) in Members(d)
  {
    var ms, ps := Members(d), OptionalPairs(d);
    AttachmentKeysFresh(d);
    if ps[i].1 != "" {
      AppendSetHasSet(RequiredMembers(d), ps, i);
      var j :| 0 <= j < |ms| && ms[j] == StringMember(ps[i].0, ps[i].1);
      assert ms[j].key == OptionalKeys[i];
    } else {
      forall j | 0 <= j < |ms|
        ensures ms[j].key != OptionalKeys[i]
      {
        assert ms[j] in ms;
        KeyOfAppended(RequiredMembers(d), ps, ms[j], i);
      }
    }
  }

  /**
   * A new attachment serializes to exactly the four required clauses, with an
   * empty `fields` array.
   */
  lemma NewAttachmentMembers(text: string, fallback: string, timestamp: Int32)
    ensures var d := NewAttachment(text, fallback, timestamp);
      Members(d) == RequiredMembers(d) && Keys(Members(d)) == RequiredKeys && FieldsText(d.fields) == "[]"
  {
    var d := NewAttachment(text, fallback, timestamp);
    OptionalChain(d);
    assert Map(FieldJson, d.fields) == [];
  }

  /** Fields are listed in the order they were added: a new field goes last. */
  lemma FieldsTextSnoc(fs: seq<SlackField>, f: SlackField)
    ensures FieldsText(fs + [f]) ==
      "[" + (if fs == [] then FieldJson(f) else Join(", ", Map(FieldJson, fs)) + ", " + FieldJson(f)) + "]"
  {
    MapSnoc(FieldJson, fs, f);
    JoinSnoc(", ", Map(FieldJson, fs), FieldJson(f));
  }

  /** The last clause of a serialized attachment ends with a quote or a bracket, never a comma. */
  lemma LastClauseEnd(d: AttachmentData)
    ensures var ms := Members(d); ms != [] && (var r := Render(ms[|ms| - 1]); r != [] && (r[|r| - 1] == '"' || r[|r| - 1] == ']'))
    ensures var rs := Map(Render, Members(d)); rs != [] && (var r := rs[|rs| - 1]; r != [] && r[|r| - 1] != ',')
  {
    var ms := Members(d);
    AppendSetLast(RequiredMembers(d), OptionalPairs(d));
    var last := ms[|ms| - 1];
    if last.StringMember? {
      StringMemberEndsWithQuote(last.key, last.text);
    } else {
      assert last == ValueMember("fields", Raw(FieldsText(d.fields)));
      ValueMemberEndsWithValue("fields", "[" + Join(", ", Map(FieldJson, d.fields)), "]");
    }
    assert Map(Render, ms)[|ms| - 1] == Render(last);
  }

  /** The serialized attachment is one object with no comma before its closing brace. */
  lemma NoTrailingComma(d: AttachmentData)
    ensures var j := AttachmentJson(d); |j| >= 3 && j[0] == '{' && j[|j| - 1] == '}' && j[|j| - 2] != ','
  {
    LastClauseEnd(d);
    BracedJoinLastChar(",", Map(Render, Members(d)), ',');
  }

  // ---------------------------------------------------------------------
  // The builder

  class SlackAttachment {
    var fallback: string
    var text: string
    var timestamp: Int32
    var pretext: string
    var color: string
    var imageUrl: string
    var thumbUrl: string
    var title: string
    var titleLink: string
    var footer: string
    var footerIcon: string
    var authorName: string
    var authorLink: string
    var authorIcon: string
    var fields: seq<SlackField>

    /** The attachment's current contents. */
    function State(): AttachmentData
      reads this
    {
      AttachmentData(fallback, text, timestamp, pretext, color, imageUrl, thumbUrl, title, titleLink,
                     footer, footerIcon, authorName, authorLink, authorIcon, fields)
    }

    /** The time stamp is the caller's "now" in epoch seconds. */
    constructor (text: string, fallback: string, timestamp: Int32)
      ensures State() == NewAttachment(text, fallback, timestamp)
    {
      this.fallback, this.text, this.timestamp := fallback, text, timestamp;
      pretext, color, imageUrl, thumbUrl := "", "", "", "";
      title, titleLink, footer, footerIcon := "", "", "", "";
      authorName, authorLink, authorIcon := "", "", "";
      fields := [];
    }

    method AddField(title: string, text: string, isShort: bool := false) returns (self: SlackAttachment)
      modifies this
      ensures self == this
      ensures State() == old(State()).(fields := old(fields) + [SlackField(title, text, isShort)])
    {
      fields := fields + [SlackField(title, text, isShort)];
      self := this;
    }

    method SetTimestamp(timestamp: Int32) returns (self: SlackAttachment)
      modifies this
      ensures self == this && State() == old(State()).(timestamp := timestamp)
    {
      this.timestamp := timestamp;
      self := this;
    }

    method SetPretext(pretext: string) returns (self: SlackAttachment)
      modifies this
      ensures self == this && State() == old(State()).(pretext := pretext)
    {
      this.pretext := pretext;
      self := this;
    }

    method SetColor(color: string) returns (self: SlackAttachment)
      modifies this
      ensures self == this && State() == old(State()).(color := color)
    {
      this.color := color;
      self := this;
    }

    method SetImage(url: string) returns (self: SlackAttachment)
      modifies this
      ensures self == this && State() == old(State()).(imageUrl := url)
    {
      imageUrl := url;
      self := this;
    }

    method SetThumbnail(url: string) returns (self: SlackAttachment)
      modifies this
      ensures self == this && State() == old(State()).(thumbUrl := url)
    {
      thumbUrl := url;
      self := this;
    }

    /** Sets the title and its link; an omitted link clears the previous one. */
    method SetTitle(title: string, url: string := "") returns (self: SlackAttachment)
      modifies this
      ensures self == this && State() == old(State()).(title := title, titleLink := url)
    {
      this.title := title;
      titleLink := url;
      self := this;
    }

    /** Sets the footer and its icon; an omitted icon clears the previous one. */
    method SetFooter(footer: string, iconUrl: string := "") returns (self: SlackAttachment)
      modifies this
      ensures self == this && State() == old(State()).(footer := footer, footerIcon := iconUrl)
    {
      this.footer := footer;
      footerIcon := iconUrl;
      self := this;
    }

    /** Sets the author, link and icon; omitted ones are cleared. */
    method SetAuthor(author: string, url: string := "", iconUrl: string := "") returns (self: SlackAttachment)
      modifies this
      ensures self == this
      ensures State() == old(State()).(authorName := author, authorLink := url, authorIcon := iconUrl)
    {
      authorName := author;
      authorLink := url;
      authorIcon := iconUrl;
      self := this;
    }

    /** Serializes the attachment: the clauses of `Members(State())` joined by `,` in braces. */
    method GenerateJSON() returns (json: string)
      ensures json == AttachmentJson(State())
    {
      // Requirements
      var sb := SimpleJSONString("fallback", fallback) + ",";
      sb := sb + SimpleJSONString("text", text) + ",";
      sb := sb + SimpleJSONValue("ts", Int(timestamp)) + ",";

      // Slack fields
      var fieldjson := FieldsJoined(fields);
      assert "[" + fieldjson + "]" == FieldsText(fields);
      sb := sb + SimpleJSONValue("fields", Raw("[" + fieldjson + "]")) + ",";
      RequiredPrefix(State());
      ghost var done := RequiredMembers(State());

      // Formatting and decoratives, titles, footer, author
      sb, done := AppendIfSet(sb, "color", color, done);
      sb, done := AppendIfSet(sb, "pretext", pretext, done);
      sb, done := AppendIfSet(sb, "image_url", imageUrl, done);
      sb, done := AppendIfSet(sb, "thumb_url", thumbUrl, done);
      sb, done := AppendIfSet(sb, "title", title, done);
      sb, done := AppendIfSet(sb, "title_link", titleLink, done);
      sb, done := AppendIfSet(sb, "footer", footer, done);
      sb, done := AppendIfSet(sb, "footer_icon", footerIcon, done);
      sb, done := AppendIfSet(sb, "author_name", authorName, done);
      sb, done := AppendIfSet(sb, "author_link", authorLink, done);
      sb, done := AppendIfSet(sb, "author_icon", authorIcon, done);
      OptionalChain(State());

      // Remove the last comma: the character removed is always the separator
      TerminatedIsJoin(",", Members(State()));
      assert sb[|sb| - 1] == ',';
      sb := sb[..|sb| - 1];

      json := "{" + sb + "}";
    }
  }

  /** The `foreach` loop of GenerateJSON: each field as an object, separated by `, `. */
  method FieldsJoined(fields: seq<SlackField>) returns (fieldjson: string)
    ensures fieldjson == Join(", ", Map(FieldJson, fields))
  {
    ghost var pieces := Map(FieldJson, fields);
    fieldjson := "";
    for i := 0 to |fields|
      invariant fieldjson == Join(", ", pieces[..i])
      invariant fieldjson == "" <==> i == 0
    {
      var field := fields[i];
      var json := SimpleJSONString("title", field.title) + ",";
      json := json + SimpleJSONString("value", field.text) + ",";
      json := json + SimpleJSONValue("short", Bool(field.isShort));
      assert "{" + json + "}" == pieces[i];
      JoinStep(", ", pieces, i, fieldjson);
      fieldjson := fieldjson + (if |fieldjson| != 0 then ", " else "") + ("{" + json + "}");
    }
    TakeAll(pieces);
  }

  /**
   * One `if (value != "") { sb.Append(SimpleJSONString(key, value)); sb.Append(","); }`
   * block of GenerateJSON: the clause is appended exactly when the value is set.
   */
  method AppendIfSet(sb: string, key: string, value: string, ghost done: seq<Member>)
    returns (sb': string, ghost done': seq<Member>)
    requires sb == Terminated(",", done)
    ensures sb' == Terminated(",", done + Optional(key, value))
    ensures done' == done + Optional(key, value)
  {
    sb', done' := sb, done;
    if value != "" {
      sb' := sb' + SimpleJSONString(key, value) + ",";
      TerminatedSnoc(",", done, StringMember(key, value));
      done' := done + [StringMember(key, value)];
    } else {
      assert done' == done + [];
    }
  }

  /** The attachments' contents, in array order. */
  function States(atts: seq<SlackAttachment>): (r: seq<AttachmentData>)
    reads atts
    ensures |r| == |atts| && forall i :: 0 <= i < |atts| ==> r[i] == atts[i].State()
  {
    if atts == [] then [] else States(atts[..|atts| - 1]) + [atts[|atts| - 1].State()]
  }
}
