/** Vocabulary shared by the options page, the Thunderbird options page and
    the popup: what `normalizeTemplates` demands of a template, why it
    throws, the storage record that holds the collection, and the built-in
    default collection (shared/default-templates.js). */
module Templates {
  import opened Text
  import opened Wrappers
  import opened JsValue

  /** Why `normalizeTemplates` throws. */
  datatype NormalizeError =
    | NotAnArray
      // the input is not an array
    | MissingCore(index: nat)
      // the template at `index` has a falsy id, subject or body
    | TypeErrorAt(index: nat)
      // a property read on null or undefined while handling the template at `index`
  {
    predicate HasIndex() {
      !NotAnArray?
    }
  }

  /** The `message` of the error thrown; a TypeError's text is the
      JavaScript engine's own and is not modelled. */
  function ErrorMessage(e: NormalizeError): Option<string>
  {
    match e
    case NotAnArray => Some("Templates must be a JSON array.")
    case MissingCore(k) => Some("Template at index " + NatToString(k) + " must include id, subject, and body.")
    case TypeErrorAt(_) => None
  }

  predicate IsNullish(v: Value) {
    v.Undefined? || v.Null?
  }

  /** `template.id && template.subject && template.body`. */
  predicate HasCore(t: Value) {
    Truthy(Get(t, "id")) && Truthy(Get(t, "subject")) && Truthy(Get(t, "body"))
  }

  /** `template.fields` when it is an array, else no fields. */
  function FieldsOf(t: Value): seq<Value>
  {
    var f := Get(t, "fields");
    if f.Arr? then f.items else []
  }

  /** The "templates" record of `browser.storage.local`. */
  class TemplateStore {
    var templates: Option<seq<Value>>

    constructor ()
      ensures templates == None
    {
      templates := None;
    }
  }

  /** A status line shown to the user (`setStatus(message, isError)`). */
  datatype Status = Status(message: string, isError: bool)

  /** `error.message || fallback` for an error whose message is the
      engine's or the browser's (a failed `JSON.parse` or storage write). */
  function MessageStatus(message: string, fallback: string): Status {
    Status(if message != "" then message else fallback, true)
  }

  /** `error.message || fallback` for a normalization error. */
  function FailureStatus(e: NormalizeError, fallback: string): Status
  {
    match ErrorMessage(e)
    case Some(m) => Status(m, true)
    case None => Status(fallback, true)
  }

  /** A template record with the properties the defaults give, in their order. */
  function TemplateRecord(id: string, name: string, subject: string, body: string, fields: seq<Value>): (t: Value)
    ensures t.Obj?
    ensures Get(t, "id") == Str(id) && Get(t, "subject") == Str(subject)
    ensures Get(t, "body") == Str(body) && Get(t, "fields") == Arr(fields)
  {
    var t := Obj([("id", Str(id)), ("name", Str(name)), ("subject", Str(subject)), ("body", Str(body)),
                  ("fields", Arr(fields))]);
    LookupFirst(t.props, "id", 0);
    LookupFirst(t.props, "subject", 2);
    LookupFirst(t.props, "body", 3);
    LookupFirst(t.props, "fields", 4);
    t
  }

  function TextField(id: string, title: string, required: bool): (f: Value)
    ensures f.Obj?
  {
    Obj([("id", Str(id)), ("label", Str(title)), ("type", Str("text")), ("required", Bool(required))])
  }

  function SelectField(id: string, title: string, required: bool, options: seq<Value>): (f: Value)
    ensures f.Obj?
  {
    Obj([("id", Str(id)), ("label", Str(title)), ("type", Str("select")), ("required", Bool(required)),
         ("options", Arr(options))])
  }

  /** The first default template, "Intro - New Contact". */
  function IntroTemplate(): Value
  {
    TemplateRecord("intro", "Intro - New Contact", "Intro: {{company}} x {{your_name}}",
      "<p>Hi {{contact_name}},</p>" +
      "<p>I hope you're doing well. " + "I'm {{your_name}} from {{company}}.</p>" +
      "<p>I'd love to discuss {{topic}}. " + "Are you open to a quick chat " + "next week?</p>" +
      "<p>Best,</p><p>{{your_name}}</p>",
      [ TextField("contact_name", "Contact name", true),
        TextField("company", "Company", true),
        TextField("your_name", "Your name", true),
        TextField("topic", "Topic", false) ])
  }

  /** The second default template, "Follow-up". */
  function FollowUpTemplate(): Value
  {
    TemplateRecord("follow_up", "Follow-up", "Following up on {{topic}}",
      "<p>Hi {{contact_name}},</p>" +
      "<p>Just following up on {{topic}}.</p>" +
      "<p>Would {{time_option}} " + "work for a quick call?</p>" +
      "<p>Thanks,</p><p>{{your_name}}</p>",
      [ TextField("contact_name", "Contact name", true),
        TextField("topic", "Topic", true),
        SelectField("time_option", "Time option", true,
                    [Str("Tomorrow morning"), Str("Tomorrow afternoon"), Str("Friday")]),
        TextField("your_name", "Your name", true) ])
  }

  /** `window.DEFAULT_TEMPLATES`. */
  function DefaultTemplates(): (ts: seq<Value>)
    ensures |ts| == 2
  {
    [IntroTemplate(), FollowUpTemplate()]
  }
}
