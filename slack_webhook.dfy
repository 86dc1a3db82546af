/**
 * SlackWebhook: the client for one Slack incoming-webhook URL. It holds the
 * bot's name, icon, default channel and formatting switches, assembles the
 * message payload (a JSON object) and hands it to the HTTP layer, which here
 * is a parameter: the outcome of the POST is given, not performed.
 */
module Webhook {
  import opened Wrappers
  import opened Text
  import opened SlackHelper
  import opened Attachment

  /** Everything a SlackWebhook holds. */
  datatype WebhookData = WebhookData(
    webhook: string, name: string, icon: string, defaultChannel: string,
    useMarkdown: bool, forceAsync: bool)

  // ---------------------------------------------------------------------
  // The payload

  /** The bot name shown for a message: the name, the title, or both joined by " - ". */
  function Username(name: string, title: string): string
  {
    if name == "" then title
    else if title == "" then name
    else name + " - " + title
  }

  /** The channel a message goes to: the one given, or the default when none is given. */
  function TargetChannel(channel: string, defaultChannel: string): string
  {
    if channel == "" then defaultChannel else channel
  }

  /** The substring test UsingEmoji makes: an icon without "http" in it is an emoji. */
  function IsEmoji(icon: string): bool
  {
    !Contains(icon, "http")
  }

  /** The key under which the icon is sent: `UsingEmoji() ? "icon_emoji" : "icon_url"`. */
  function IconKey(icon: string): string
  {
    if IsEmoji(icon) then "icon_emoji" else "icon_url"
  }

  /** The icon is sent as an emoji exactly when "http" occurs nowhere in it, and as a URL otherwise. */
  lemma IconKeyIffHttp(icon: string)
    ensures IconKey(icon) == "icon_emoji" <==> !exists i :: OccursAt(icon, "http", i)
    ensures IconKey(icon) == "icon_url" <==> exists i :: OccursAt(icon, "http", i)
  {
    ContainsIffOccurs(icon, "http");
  }

  /**
   * The bot name is empty only when both the name and the title are; it
   * always ends with the title, begins with the name when there is one, and
   * joins the two with " - " when both are given. Without a name it is the
   * title alone.
   */
  lemma UsernameParts(name: string, title: string)
    ensures Username(name, title) == "" <==> name == "" && title == ""
    ensures var u := Username(name, title); |title| <= |u| && u[|u| - |title|..] == title
    ensures name != "" ==> var u := Username(name, title); |name| <= |u| && u[..|name|] == name
    ensures name != "" && title != "" ==> Username(name, title) == name + " - " + title
    ensures name != "" && title == "" ==> Username(name, title) == name
    ensures name == "" ==> Username(name, title) == title
  {
    var u := Username(name, title);
    if name != "" && title != "" {
      assert u[..|name|] == name;
      assert u[|u| - |title|..] == title;
    }
  }

  /** The default channel is used exactly when no channel, or the default itself, is given: a given channel is never replaced. */
  lemma ChannelRule(channel: string, defaultChannel: string)
    ensures TargetChannel(channel, defaultChannel) == defaultChannel <==> channel == "" || channel == defaultChannel
    ensures channel != "" ==> TargetChannel(channel, defaultChannel) == channel
  {
  }

  /**
   * The attachments' JSON, separated by ", ": present only for a non-null,
   * non-empty array (`atts` is `None` for a null array).
   */
  function AttachmentsJson(atts: Option<seq<AttachmentData>>): Option<string>
  {
    if atts.Some? && atts.value != [] then Some(Join(", ", Map(AttachmentJson, atts.value))) else None
  }

  /** The `attachments` clause, when there is attachment JSON to send. */
  function AttachmentsClause(attjson: Option<string>): seq<Member>
  {
    if attjson.Some? then [ValueMember("attachments", Raw("[" + attjson.value + "]"))] else []
  }

  /** The clauses of a payload, in order. */
  function PayloadMembers(d: WebhookData, message: string, title: string, channel: string,
                          attjson: Option<string>): seq<Member>
  {
    [StringMember("username", Username(d.name, title))] + AttachmentsClause(attjson)
    + [StringMember(IconKey(d.icon), d.icon)]
    + [StringMember("channel", TargetChannel(channel, d.defaultChannel))]
    + [StringMember("text", message)]
    + [ValueMember("mrkdown", Bool(d.useMarkdown))]
  }

  /** The JSON object PreparePayload produces: the clauses joined by ", " inside braces. */
  function PayloadJson(d: WebhookData, message: string, title: string, channel: string,
                       attjson: Option<string>): string
  {
    ObjectText(", ", PayloadMembers(d, message, title, channel, attjson))
  }

  /** The payload's keys, in order: username, attachments only when there is attachment JSON, icon, channel, text, mrkdown. */
  lemma PayloadKeys(d: WebhookData, message: string, title: string, channel: string, attjson: Option<string>)
    ensures Keys(PayloadMembers(d, message, title, channel, attjson))
      == ["username"] + (if attjson.Some? then ["attachments"] else []) + [IconKey(d.icon), "channel", "text", "mrkdown"]
  {
    var ms := PayloadMembers(d, message, title, channel, attjson);
    var ks := ["username"] + (if attjson.Some? then ["attachments"] else []) + [IconKey(d.icon), "channel", "text", "mrkdown"];
    assert |Keys(ms)| == |ks|;
    forall i | 0 <= i < |ks|
      ensures Keys(ms)[i] == ks[i]
    {
      assert Keys(ms)[i] == ms[i].key;
    }
  }

  /** The attachments clause is sent exactly when there is attachment JSON, right after the username. */
  lemma AttachmentsKeyIff(d: WebhookData, message: string, title: string, channel: string, attjson: Option<string>)
    ensures HasKey(PayloadMembers(d, message, title, channel, attjson), "attachments") <==> attjson.Some?
    ensures attjson.Some? ==>
      PayloadMembers(d, message, title, channel, attjson)[1] == ValueMember("attachments", Raw("[" + attjson.value + "]"))
  {
    var ms := PayloadMembers(d, message, title, channel, attjson);
    PayloadKeys(d, message, title, channel, attjson);
    if HasKey(ms, "attachments") {
      var j :| 0 <= j < |ms| && ms[j].key == "attachments";
      assert Keys(ms)[j] == "attachments";
    }
    if attjson.Some? {
      assert Keys(ms)[1] == "attachments";
    }
  }

  /**
   * The attachments clause is sent exactly when the array is non-null and
   * non-empty; it then holds the attachments' JSON objects, in array order,
   * separated by ", " inside brackets.
   */
  lemma AttachmentsClauseIffPresent(d: WebhookData, message: string, title: string, channel: string,
                                    atts: Option<seq<AttachmentData>>)
    ensures HasKey(PayloadMembers(d, message, title, channel, AttachmentsJson(atts)), "attachments")
            <==> atts.Some? && atts.value != []
    ensures atts.Some? && atts.value != [] ==>
      PayloadMembers(d, message, title, channel, AttachmentsJson(atts))[1]
        == ValueMember("attachments", Raw("[" + Join(", ", Map(AttachmentJson, atts.value)) + "]"))
  {
    AttachmentsKeyIff(d, message, title, channel, AttachmentsJson(atts));
  }

  /**
   * Every clause but the last is followed by ", ", and the last one,
   * `"mrkdown": true` or `"mrkdown": false`, by the closing brace alone.
   */
  lemma PayloadEndsWithMarkdown(d: WebhookData, message: string, title: string, channel: string, attjson: Option<string>)
    ensures var ms := PayloadMembers(d, message, title, channel, attjson);
      PayloadJson(d, message, title, channel, attjson)
        == "{" + Terminated(", ", ms[..|ms| - 1]) + "\"mrkdown\": " + (if d.useMarkdown then "true" else "false") + "}"
  {
    var ms := PayloadMembers(d, message, title, channel, attjson);
    ObjectTextSplit(", ", ms);
    MarkdownClause(d.useMarkdown);
  }

  // ---------------------------------------------------------------------
  // Sending

  /** How the POST to the webhook URL went. */
  datatype PostOutcome =
    | Rejected                              // the request could not even be started
    | Failed                                // the request failed while it was awaited
    | Answered(status: int, body: string)   // Slack answered

  /** The form post SendPayload issues: one `payload` field, to the webhook URL. */
  datatype Request = Request(url: string, payload: string, async: bool)

  /**
   * The result SendPayload reports. A synchronous send waits for the answer
   * and succeeds only on a 2xx status with body "ok"; an asynchronous one
   * does not wait, and succeeds whenever the request could be started.
   */
  function SendResult(async: bool, outcome: PostOutcome): bool
  {
    match outcome
    case Rejected => false
    case Failed => async
    case Answered(status, body) => async || (200 <= status <= 299 && body == "ok")
  }

  /**
   * An asynchronous send succeeds exactly when the request could be
   * started; a synchronous one exactly on a 2xx answer whose body is "ok",
   * so it never succeeds where the asynchronous one fails.
   */
  lemma SendResultCases(outcome: PostOutcome)
    ensures SendResult(true, outcome) <==> !outcome.Rejected?
    ensures SendResult(false, outcome) <==> outcome.Answered? && 200 <= outcome.status <= 299 && outcome.body == "ok"
    ensures SendResult(false, outcome) ==> SendResult(true, outcome)
  {
  }

  // ---------------------------------------------------------------------
  // The client

  class SlackWebhook {
    const webhook: string
    var name: string
    var icon: string
    var defaultChannel: string
    var useMarkdown: bool
    var forceAsync: bool

    function State(): WebhookData
      reads this
    {
      WebhookData(webhook, name, icon, defaultChannel, useMarkdown, forceAsync)
    }

    /** A new client; the default channel is "#-lobby-" unless one is given. */
    constructor (webhookUrl: string, name: string := "", icon: string := "", defaultChannel: string := "#-lobby-")
      ensures State() == WebhookData(webhookUrl, name, icon, defaultChannel, false, false)
    {
      webhook := webhookUrl;
      this.name := name;
      this.icon := icon;
      this.defaultChannel := defaultChannel;
      useMarkdown := false;
      forceAsync := false;
    }

    /** The icon is an emoji exactly when it does not contain "http". */
    function UsingEmoji(): (r: bool)
      reads this
      ensures r <==> !exists i :: OccursAt(icon, "http", i)
    {
      ContainsIffOccurs(icon, "http");
      IsEmoji(icon)
    }

    /**
     * Assembles the payload for a message; `attachments` may be null. The
     * attachments' JSON is gathered first, and the clauses are then appended
     * in order by BuildPayload.
     */
    method PreparePayload(message: string, title: string, channel: string, attachments: array?<SlackAttachment>)
      returns (payload: string)
      ensures payload == PayloadJson(State(), message, title, channel,
                                     AttachmentsJson(if attachments == null then None else Some(States(attachments[..]))))
    {
      ghost var atts := if attachments == null then None else Some(States(attachments[..]));
      var attjson := None;
      if attachments != null && attachments.Length > 0 {
        var joined := AttachmentsJoined(attachments, atts.value);
        attjson := Some(joined);
      }
      assert attjson == AttachmentsJson(atts);
      payload := BuildPayload(State(), message, title, channel, attjson);
    }

    /** Posts `payload` to the webhook URL and reports success as SendPayload does. */
    method SendPayload(payload: string, async: bool, outcome: PostOutcome) returns (request: Request, ok: bool)
      ensures request == Request(webhook, payload, async)
      ensures ok == SendResult(async, outcome)
    {
      request := Request(webhook, payload, async);
      match outcome
      case Rejected =>
        ok := false;
      case Failed =>
        ok := async;
      case Answered(status, body) =>
        if !async {
          if !(200 <= status <= 299) {
            ok := false;
          } else {
            ok := body == "ok";
          }
        } else {
          ok := true;
        }
    }

    /** Sends a message, waiting for Slack's answer unless the client forces asynchronous sends. */
    method Send(outcome: PostOutcome, message: string, title: string := "", channel: string := "",
                attachments: array?<SlackAttachment> := null)
      returns (request: Request, ok: bool)
      ensures request == Request(webhook, PayloadJson(State(), message, title, channel,
                                   AttachmentsJson(if attachments == null then None else Some(States(attachments[..])))), forceAsync)
      ensures ok == SendResult(forceAsync, outcome)
    {
      ghost var d := State();
      ghost var atts := if attachments == null then None else Some(States(attachments[..]));
      var payload := PreparePayload(message, title, channel, attachments);
      request, ok := SendPayload(payload, forceAsync, outcome);
      assert State() == d && (if attachments == null then None else Some(States(attachments[..]))) == atts;
    }

    /** Sends a message without waiting for Slack's answer. */
    method SendAsync(outcome: PostOutcome, message: string, title: string := "", channel: string := "",
                     attachments: array?<SlackAttachment> := null)
      returns (request: Request, ok: bool)
      ensures request == Request(webhook, PayloadJson(State(), message, title, channel,
                                   AttachmentsJson(if attachments == null then None else Some(States(attachments[..])))), true)
      ensures ok == SendResult(true, outcome)
    {
      ghost var d := State();
      ghost var atts := if attachments == null then None else Some(States(attachments[..]));
      var payload := PreparePayload(message, title, channel, attachments);
      request, ok := SendPayload(payload, true, outcome);
      assert State() == d && (if attachments == null then None else Some(States(attachments[..]))) == atts;
    }
  }

  /** The clauses BuildPayload appended, in order, make up the payload once braced. */
  lemma ClosePayload(d: WebhookData, message: string, title: string, channel: string, attjson: Option<string>,
                     sb: string, head: seq<Member>, done: seq<Member>)
    requires head == [StringMember("username", Username(d.name, title))] + AttachmentsClause(attjson)
    requires done == head + [StringMember(IconKey(d.icon), d.icon)]
                     + [StringMember("channel", TargetChannel(channel, d.defaultChannel))]
                     + [StringMember("text", message)]
    requires sb == Join(", ", Map(Render, done + [ValueMember("mrkdown", Bool(d.useMarkdown))]))
    ensures "{" + sb + "}" == PayloadJson(d, message, title, channel, attjson)
  {
  }

  /**
   * The appends of PreparePayload, in order, on a StringBuilder: `attjson`
   * is the attachments' JSON when the array is non-null and non-empty.
   */
  method BuildPayload(d: WebhookData, message: string, title: string, channel: string, attjson: Option<string>)
    returns (payload: string)
    ensures payload == PayloadJson(d, message, title, channel, attjson)
  {
    var sb := "";
    ghost var done: seq<Member> := [];

    // The name
    var username := d.name;
    if title != "" {
      username := username + " - " + title;
    }
    if d.name == "" {
      username := title;
    }
    assert username == Username(d.name, title);
    sb, done := AppendString(sb, done, "username", username, ", ");

    // The attachments
    if attjson.Some? {
      sb, done := AppendValue(sb, done, "attachments", Raw("[" + attjson.value + "]"), ", ");
    }
    assert done == [StringMember("username", username)] + AttachmentsClause(attjson);
    ghost var head := done;

    // The icon
    var iconKey := if IsEmoji(d.icon) then "icon_emoji" else "icon_url";
    assert iconKey == IconKey(d.icon);
    sb, done := AppendString(sb, done, iconKey, d.icon, ", ");

    // The channel
    var target := channel;
    if target == "" {
      target := d.defaultChannel;
    }
    assert target == TargetChannel(channel, d.defaultChannel);
    sb, done := AppendString(sb, done, "channel", target, ", ");

    // The message and the formatting switch, which takes no separator
    sb, done := AppendString(sb, done, "text", message, ", ");
    sb := AppendLastValue(sb, done, "mrkdown", Bool(d.useMarkdown), ", ");
    ClosePayload(d, message, title, channel, attjson, sb, head, done);
    payload := "{" + sb + "}";
  }

  /**
   * The `foreach` loop of PreparePayload: each attachment's JSON, separated
   * by ", ". `ds` names the attachments' contents, which the loop leaves as
   * they are.
   */
  method AttachmentsJoined(attachments: array<SlackAttachment>, ghost ds: seq<AttachmentData>) returns (attjson: string)
    requires ds == States(attachments[..])
    ensures ds == States(attachments[..])
    ensures attjson == Join(", ", Map(AttachmentJson, ds))
  {
    ghost var pieces := Map(AttachmentJson, States(attachments[..]));
    attjson := "";
    for i := 0 to attachments.Length
      invariant attjson == Join(", ", pieces[..i])
      invariant attjson == "" <==> i == 0
    {
      var json := attachments[i].GenerateJSON();
      assert json == pieces[i];
      JoinStep(", ", pieces, i, attjson);
      attjson := attjson + (if |attjson| != 0 then ", " else "") + json;
    }
    TakeAll(pieces);
  }
}
