# Slack incoming-webhook client, modelled in Dafny

This project models `SlackWebhooks/SlackWebhook.cs`, a small C# client for
Slack's incoming webhooks. It covers three classes.

- **SlackHelper** builds JSON key/value fragments by hand. `SimpleJSONValue`
  escapes the key and inserts the value's text as it is. `SimpleJSONString`
  also escapes and quotes the value. `CreateLink` builds Slack's `<url|label>`
  link markup.
- **SlackAttachment** is a rich-content block. Chained setters overwrite its
  fields in place, and `GenerateJSON` serializes it.
- **SlackWebhook** is the client for one webhook URL. `PreparePayload`
  assembles the message's JSON object. `Send` and `SendAsync` post it through
  `SendPayload`.

The modules follow the source file:

- `wrappers.dfy` holds `Option`.
- `text.dfy` models the .NET string operations the client relies on. These
  are `Replace` with a one-character pattern, ordinal `Contains`, and joining
  pieces with a separator.
- `slack_helper.dfy` (module `SlackHelper`) holds the escaping, the JSON
  clauses and `CreateLink`. It also holds the readers that serve as their
  partners: a JSON string reader following section 7 of RFC 8259, and a
  splitter for the link markup.
- `slack_attachment.dfy` (module `Attachment`) holds the attachment's
  contents as a datatype, the specification of its serialized form, and the
  class `SlackAttachment`.
- `slack_webhook.dfy` (module `Webhook`) holds the payload's specification,
  the result rules of `SendPayload`, and the class `SlackWebhook`.

Both builders append to a `StringBuilder`. Each is a method proved against a
specification function.

- A `GenerateJSON` result is `ObjectText(",", Members(d))`: the attachment's
  clauses joined by `,` inside braces.
- A `PreparePayload` result is `ObjectText(", ", PayloadMembers(…))`.

Lemmas then state what those functions promise: keys, order, presence rules
and readability.

`PreparePayload` works in two steps. `AttachmentsJoined` runs its `foreach`
over the attachment array. `BuildPayload` then makes the appends on the
client's current settings.

Some behaviours of the code are worth stating plainly. The model follows the
code in each case.

- **Trailing comma in `GenerateJSON`.** The method appends `,` after every
  clause and then removes the last character (lines 415-418). The model keeps
  that strategy. `TerminatedIsJoin` and `NoTrailingComma` prove that the
  character removed is always that separator. They also prove that the
  result equals the clauses joined without a trailing separator.
- **Escaping.** Only backslash and double quote are escaped. Control
  characters such as a newline or a tab go through unchanged, and a strict
  JSON reader rejects them inside a string. So the escaping round trip holds
  exactly for strings without control characters, and `EscapeRoundTrip`
  states both directions.
- **Channel.** The message goes to the default channel when no channel is
  given or when the default itself is given. A channel that is given is never
  replaced. "Default channel exactly when none is given" is therefore not an
  if-and-only-if.
- **Settings.** The public properties `Name`, `Icon`, `DefaultChannel`,
  `UseMarkdown` and the public field `forceAsyncronus` are the fields `name`,
  `icon`, `defaultChannel`, `useMarkdown` and `forceAsync` of
  `Webhook.SlackWebhook`, which callers may assign directly, as in C#.
- **The `mrkdown` key.** The formatting switch is sent under the key
  `mrkdown`, spelled as in the source.

## Model

| member | source | states |
|---|---|---|
| SlackHelper.EscapeIsCharwise | SlackWebhooks/SlackWebhook.cs:442 | Replacing `\` and then `"` escapes each character on its own: the result equals the character-by-character escaping, so no backslash the second pass inserts is doubled |
| SlackHelper.EscapePlain | SlackWebhooks/SlackWebhook.cs:442 | A string with neither a backslash nor a quote is left unchanged by the escaping |
| SlackHelper.EscapeCharsRoundTrip | SlackWebhooks/SlackWebhook.cs:458 | The character-by-character escaping followed by a closing quote reads back as the original, with what follows untouched, exactly when the text holds no control character; otherwise the reader rejects it |
| SlackHelper.EscapeRoundTrip | SlackWebhooks/SlackWebhook.cs:458 | The escaping round trip: an escaped string followed by a closing quote reads back as the original, with what follows untouched, exactly when the string holds no control character; otherwise a strict reader rejects it |
| SlackHelper.NatText | SlackWebhooks/SlackWebhook.cs:444 | `ToString()` of a non-negative timestamp is a non-empty run of decimal digits, with a leading `0` only for zero |
| SlackHelper.IntTextRoundTrip | SlackWebhooks/SlackWebhook.cs:444 | The `ts` value's text (`int.ToString()`, with a minus sign when negative) reads back as the same integer |
| SlackHelper.BoolValueIsJsonLiteral | SlackWebhooks/SlackWebhook.cs:444-445 | A bool value's `ToString()` lower-cased is the JSON literal `true` or `false` |
| SlackHelper.SimpleJSONValueReadsBack | SlackWebhooks/SlackWebhook.cs:440-448 | For a key without control characters, the clause reads back as `"key": ` carrying that key, followed by the value's text verbatim (the value is not escaped) |
| SlackHelper.SimpleJSONStringReadsBack | SlackWebhooks/SlackWebhook.cs:456-460 | The clause is `"` + escaped key + `": "` + escaped value + `"`, and reading it back yields exactly the key and the value when the value holds no control character; otherwise it is rejected |
| SlackHelper.TerminatedSingle | SlackWebhooks/SlackWebhook.cs:333 | A builder holding one clause and its separator holds exactly that clause's text followed by the separator |
| SlackHelper.TerminatedSnoc | SlackWebhooks/SlackWebhook.cs:333-335 | Each `Append(clause); Append(sep)` pair extends the builder by that clause's text and the separator |
| SlackHelper.AppendString | SlackWebhooks/SlackWebhook.cs:142 | `sb.Append(SimpleJSONString(key, value)); sb.Append(sep)`: the builder then holds the clauses appended so far plus this one, each followed by the separator |
| SlackHelper.AppendValue | SlackWebhooks/SlackWebhook.cs:155 | `sb.Append(SimpleJSONValue(key, value)); sb.Append(sep)`: the builder then holds the clauses appended so far plus this one, each followed by the separator |
| SlackHelper.AppendLastValue | SlackWebhooks/SlackWebhook.cs:167 | Appending the final clause without a separator leaves exactly the clauses joined by the separator, with none after the last |
| SlackHelper.TerminatedIsJoin | SlackWebhooks/SlackWebhook.cs:415-418 | Every clause followed by the separator is the join of the clauses plus one trailing separator: stripping the last separator gives the join |
| SlackHelper.ObjectTextSplit | SlackWebhooks/SlackWebhook.cs:166-170 | A braced object is every clause but the last each followed by the separator, then the last clause, then `}` |
| SlackHelper.MarkdownClause | SlackWebhooks/SlackWebhook.cs:167 | The formatting switch renders as `"mrkdown": true` or `"mrkdown": false` |
| SlackHelper.ValueMemberEndsWithValue | SlackWebhooks/SlackWebhook.cs:447 | A value clause ends with the last character of its value's text |
| SlackHelper.StringMemberEndsWithQuote | SlackWebhooks/SlackWebhook.cs:459 | A string clause ends with the quote closing its value |
| SlackHelper.EncodeIsCharwise | SlackWebhooks/SlackWebhook.cs:471 | The three `Replace` calls encode each character on its own: `<`, `>` and the vertical bar become `%3C`, `%3E`, `%7C` and nothing else changes |
| SlackHelper.EncodedIsLinkSafe | SlackWebhooks/SlackWebhook.cs:471 | Encoded text never holds `<`, `>` or a vertical bar |
| SlackHelper.EncodeFixesExactlySafe | SlackWebhooks/SlackWebhook.cs:471 | Encoding leaves a string unchanged exactly when it holds none of `<`, `>` and the vertical bar |
| SlackHelper.EncodeIdempotent | SlackWebhooks/SlackWebhook.cs:471-474 | Encoding twice equals encoding once, so an empty name's label (the already encoded url) is the url encoded once |
| SlackHelper.SplitLinkOf | SlackWebhooks/SlackWebhook.cs:477 | The markup `<`, `u`, vertical bar, label, `>` with a link-safe `u` splits at its first vertical bar back into `u` and the label |
| SlackHelper.CreateLinkReadsBack | SlackWebhooks/SlackWebhook.cs:468-478 | Reading the link back yields the encoded url and, as label, the encoded name, or the encoded url when the name is empty; both parts are free of `<`, `>` and the vertical bar |
| Text.ContainsIffOccurs | SlackWebhooks/SlackWebhook.cs:64 | Ordinal `Contains` is true exactly when the pattern occurs at some index |
| Attachment.RequiredPrefix | SlackWebhooks/SlackWebhook.cs:333-351 | The builder first holds the `fallback`, `text`, `ts` and `fields` clauses, in that order, each followed by `,` |
| Attachment.OptionalChain | SlackWebhooks/SlackWebhook.cs:352-414 | The clauses are the four required ones followed by the eleven optional ones, in the order the `if` blocks test them, each present only when its value is non-empty |
| Attachment.AttachmentKeysFresh | SlackWebhooks/SlackWebhook.cs:333-413 | The required keys are distinct, the optional keys are distinct, and no optional key repeats a required one |
| Attachment.AppendSetDistinct | SlackWebhooks/SlackWebhook.cs:352-414 | Appending conditional clauses whose keys are fresh and distinct keeps every key distinct |
| Attachment.MembersBeginWithRequired | SlackWebhooks/SlackWebhook.cs:333-351 | Every serialized attachment begins with `fallback`, `text`, `ts`, `fields`, in that order, holding the attachment's values |
| Attachment.MemberKeysDistinct | SlackWebhooks/SlackWebhook.cs:333-413 | No key appears twice in a serialized attachment, so a setter called twice leaves one clause |
| Attachment.OptionalKeyIffSet | SlackWebhooks/SlackWebhook.cs:354-413 | Each optional key is emitted exactly when its own value is non-empty, and then carries that value |
| Attachment.NewAttachmentMembers | SlackWebhooks/SlackWebhook.cs:208-215 | A new attachment serializes to exactly the four required clauses, with an empty `fields` array |
| Attachment.FieldsTextSnoc | SlackWebhooks/SlackWebhook.cs:339-348 | A field added last is rendered last in the `fields` array, after `, ` when others precede it |
| Attachment.LastClauseEnd | SlackWebhooks/SlackWebhook.cs:333-413 | The last clause of a serialized attachment ends with a quote or a bracket, so the rendered clause before the closing brace never ends with a comma |
| Attachment.NoTrailingComma | SlackWebhooks/SlackWebhook.cs:415-418 | The serialized attachment is braced and has no comma before its closing brace |
| Attachment.SlackAttachment.constructor | SlackWebhooks/SlackWebhook.cs:208-215 | A new attachment holds the given text, fallback and time stamp, with every optional value empty and no fields |
| Attachment.SlackAttachment.AddField | SlackWebhooks/SlackWebhook.cs:223-228 | Appends the field at the end of the fields and changes nothing else; returns the same attachment |
| Attachment.SlackAttachment.SetTimestamp | SlackWebhooks/SlackWebhook.cs:235-239 | Overwrites the time stamp only; returns the same attachment |
| Attachment.SlackAttachment.SetPretext | SlackWebhooks/SlackWebhook.cs:245-249 | Overwrites the pretext only; returns the same attachment |
| Attachment.SlackAttachment.SetColor | SlackWebhooks/SlackWebhook.cs:255-259 | Overwrites the colour only (last write wins); returns the same attachment |
| Attachment.SlackAttachment.SetImage | SlackWebhooks/SlackWebhook.cs:267-271 | Overwrites the image url only; returns the same attachment |
| Attachment.SlackAttachment.SetThumbnail | SlackWebhooks/SlackWebhook.cs:280-284 | Overwrites the thumbnail url only; returns the same attachment |
| Attachment.SlackAttachment.SetTitle | SlackWebhooks/SlackWebhook.cs:291-296 | Overwrites the title and the title link (an omitted link clears it) and nothing else; returns the same attachment |
| Attachment.SlackAttachment.SetFooter | SlackWebhooks/SlackWebhook.cs:303-308 | Overwrites the footer and its icon (an omitted icon clears it) and nothing else; returns the same attachment |
| Attachment.SlackAttachment.SetAuthor | SlackWebhooks/SlackWebhook.cs:316-322 | Overwrites the author name, link and icon (omitted ones are cleared) and nothing else; returns the same attachment |
| Attachment.SlackAttachment.GenerateJSON | SlackWebhooks/SlackWebhook.cs:328-419 | Returns the attachment's clauses joined by `,` inside braces, as `Members` lays them out |
| Attachment.FieldsJoined | SlackWebhooks/SlackWebhook.cs:339-348 | The fields loop yields each field's `{title, value, short}` object, in order, separated by `, ` |
| Attachment.AppendIfSet | SlackWebhooks/SlackWebhook.cs:354-358 | One `if (value != "")` block: the clause and its comma are appended exactly when the value is non-empty |
| Webhook.IconKeyIffHttp | SlackWebhooks/SlackWebhook.cs:159 | The icon goes under `icon_emoji` exactly when "http" occurs nowhere in it, and under `icon_url` exactly when it does |
| Webhook.UsernameParts | SlackWebhooks/SlackWebhook.cs:139-141 | The user name is empty only when the name and the title both are; it ends with the title, starts with the name when one is set, is `name - title` when both are set, the name alone when the title is empty, and the title alone when the name is empty |
| Webhook.ChannelRule | SlackWebhooks/SlackWebhook.cs:162 | The default channel is used exactly when no channel or the default itself is given; a given channel is sent as it is |
| Webhook.PayloadKeys | SlackWebhooks/SlackWebhook.cs:139-167 | The payload's keys, in order: `username`, `attachments` only when there is attachment JSON, the icon key, `channel`, `text`, `mrkdown` |
| Webhook.AttachmentsKeyIff | SlackWebhooks/SlackWebhook.cs:145-156 | The `attachments` key is present exactly when there is attachment JSON, and it then comes right after `username` holding that JSON in brackets |
| Webhook.AttachmentsClauseIffPresent | SlackWebhooks/SlackWebhook.cs:145-156 | The `attachments` clause is sent exactly when the array is non-null and non-empty, and it holds the attachments' JSON in array order, separated by `, `, in brackets |
| Webhook.PayloadEndsWithMarkdown | SlackWebhooks/SlackWebhook.cs:166-170 | Every clause but the last is followed by `, `, and the last, `"mrkdown": true` or `false`, is followed by the closing brace alone |
| Webhook.SendResultCases | SlackWebhooks/SlackWebhook.cs:111-130 | An asynchronous send succeeds exactly when the request could be started; a synchronous one exactly on a 2xx answer with body `ok`, so it never succeeds where an asynchronous one fails |
| Webhook.ClosePayload | SlackWebhooks/SlackWebhook.cs:167-170 | The clauses appended in order, joined and braced, are the payload |
| Webhook.BuildPayload | SlackWebhooks/SlackWebhook.cs:136-170 | The appends of PreparePayload produce the payload object of the current settings and the given message, title, channel and attachment JSON |
| Webhook.AttachmentsJoined | SlackWebhooks/SlackWebhook.cs:148-152 | The attachments loop yields each attachment's JSON in array order, separated by `, `, and leaves the attachments unchanged |
| Webhook.SlackWebhook.constructor | SlackWebhooks/SlackWebhook.cs:50-56 | A new client holds the URL, name, icon and default channel given (`#-lobby-` when none is given), with markdown and forced async off |
| Webhook.SlackWebhook.UsingEmoji | SlackWebhooks/SlackWebhook.cs:62-65 | True exactly when "http" occurs nowhere in the icon |
| Webhook.SlackWebhook.PreparePayload | SlackWebhooks/SlackWebhook.cs:133-171 | Returns the payload object for the client's settings, the message, title and channel, and the attachments' contents (no attachment clause for a null or empty array) |
| Webhook.SlackWebhook.SendPayload | SlackWebhooks/SlackWebhook.cs:96-132 | Posts the payload to the client's URL and reports exactly the result rules of `SendResult` for the given outcome |
| Webhook.SlackWebhook.Send | SlackWebhooks/SlackWebhook.cs:75-79 | Posts the prepared payload, waiting for the answer unless the client forces asynchronous sends, and reports that mode's result |
| Webhook.SlackWebhook.SendAsync | SlackWebhooks/SlackWebhook.cs:89-93 | Posts the prepared payload without waiting and reports the asynchronous result |

## Left out

- HTTP transport: the `HttpClient`, the form-url-encoded body and the awaited task are not modelled. `SendPayload` takes the outcome of the POST as a parameter: the request could not be started, it failed while awaited, or Slack answered with a status and body. The request it would issue is returned as a value.
- Fire-and-forget concurrency: an asynchronous send is modelled only through its result; the request left running after it returns is not modelled.
- The clock: the constructor of `SlackAttachment` reads the current UTC time and truncates the elapsed seconds to `int` (lines 213-214). The model takes the time stamp as a constructor parameter of type `Int32`.
- `object.ToString()` in general: the client only passes strings, `int` time stamps and `bool`s to `SimpleJSONValue`, so its value is a three-case datatype.
- `string.ToLower()`: culture-sensitive lower-casing is modelled on ASCII letters only, which is all `True`/`False` contain.
- Null strings: strings in the model are never null. In the C# code a null `Name` with a non-empty title gives the user name `" - " + title`, and a null title with a non-empty `Name` gives `Name + " - "`, since concatenation treats null as empty and a null string is not equal to `""` (lines 139-141). Every other null string the code reaches (a null name with an empty title, a null title with an empty name, a null channel, message, icon or default channel used, a null setter argument or field text serialized by `GenerateJSON`, a null `CreateLink` argument) makes a `Replace` or `Contains` call throw. A null element inside the attachment array makes `GenerateJSON` throw as well; the model's array holds no nulls.
- SlackHelper.IntText: writes `-` for a negative time stamp, while `int.ToString()` writes the current culture's negative sign.
- Characters: a Dafny `char` is a Unicode scalar value, while a C# `char` is a UTF-16 code unit. A string holding a lone surrogate cannot be represented, and a character outside the Basic Multilingual Plane is one `char` here instead of a surrogate pair. The patterns the client replaces or searches for are all ASCII, so escaping, encoding and the "http" test treat such characters the same way in both.
- `\u` escapes: the JSON string reader does not accept them. The escaping never produces one, so no round trip depends on them.
- `Program.cs` is a demonstration program and is not part of this model.
