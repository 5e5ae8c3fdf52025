/** Resolution of notification texts from local template files: the language
    tag, the display names with their raw-string fallback, the special topic
    of an event, the ordered topic search over a template cache, the
    template file path, and the `_display` fields added to resource
    details. Template execution, file reads, JSON and the translation tables
    are parameters. */
module EventTemplate {
  import opened Wrappers
  import opened Text

  /** The values of constants defined elsewhere in the code base. */
  datatype Vocabulary = Vocabulary(
    langCn: string,            // TEMPLATE_LANG_CN
    webhook: string,           // the webhook contact type
    rebuildRoot: string, changeIpaddr: string, resetPassword: string,
    delete: string, update: string,
    baremetal: string, server: string, loadbalancer: string,
    dbinstance: string, elasticcache: string,
    scalingPolicy: string, scheduledTask: string)

  const TemplateDir: string := "/opt/yunion/share/local-templates"

  datatype Lang = ZhCn | En

  /** `languageTag`. */
  function LanguageTag(lang: string, voc: Vocabulary): (r: Lang)
    ensures r == ZhCn <==> lang == voc.langCn
    ensures r == En <==> lang != voc.langCn
  {
    if lang == voc.langCn then ZhCn else En
  }

  /** A notification event. `joined` and `actionResult` are the event's own
      renderings `StringWithDeli("_")` and `ActionWithResult("_")`. */
  datatype Event = Event(resourceType: string, action: string, result: string,
                         joined: string, actionResult: string)

  // ----------------------------------------------------------- topics

  predicate IsUpdateLike(action: string, voc: Vocabulary) {
    action == voc.rebuildRoot || action == voc.changeIpaddr || action == voc.resetPassword
  }

  predicate DeletesWithIp(resourceType: string, voc: Vocabulary) {
    resourceType == voc.baremetal || resourceType == voc.server || resourceType == voc.loadbalancer
    || resourceType == voc.dbinstance || resourceType == voc.elasticcache
  }

  /** `specTopic`: rebuild-root, change-ipaddr and reset-password read as
      updates; deleting a resource that holds an address has its own topic;
      every other event has none. */
  function SpecTopic(ev: Event, voc: Vocabulary): (r: string)
    ensures IsUpdateLike(ev.action, voc) ==> r == voc.update
    ensures !IsUpdateLike(ev.action, voc) && ev.action == voc.delete && DeletesWithIp(ev.resourceType, voc)
            ==> r == "DELETE_WITH_IP"
    ensures !IsUpdateLike(ev.action, voc) && !(ev.action == voc.delete && DeletesWithIp(ev.resourceType, voc))
            ==> r == ""
  {
    if IsUpdateLike(ev.action, voc) then voc.update
    else if ev.action == voc.delete && DeletesWithIp(ev.resourceType, voc) then "DELETE_WITH_IP"
    else ""
  }

  /** The topics `fillWithTemplate` tries, most specific first. */
  function Topics(ev: Event, voc: Vocabulary): (r: seq<string>)
    ensures |r| == 4 && r[0] == SpecTopic(ev, voc) && r[3] == "common"
    ensures r[1] == ev.joined && r[2] == ev.actionResult
  {
    [SpecTopic(ev, voc), ev.joined, ev.actionResult, "common"]
  }

  // ---------------------------------------------------- files and cache

  /** What reading a file gives; a path missing from the file system map
      reads as a `PathError`. */
  datatype FileRead = Content(text: string) | PathError | ReadError(msg: string)

  datatype TemplateError = NotFound | ReadFailed(msg: string) | ParseFailed(key: string) | ExecFailed(msg: string)

  /** A parsed template, named by its cache key. */
  datatype Template = Template(key: string, source: string)

  /** Where the template files are and which sources parse. */
  datatype Files = Files(fs: map<string, FileRead>, parses: string -> bool)

  /** `getTemplateString` with no contact type (the only way it is called):
      `<dir>/<titleOrContent>@<lang>/<TOPIC>.tmpl`. */
  function TemplatePath(titleOrContent: string, topic: string, lang: string): (r: string)
    ensures HasPrefix(r, TemplateDir + "/" + titleOrContent + "@" + lang + "/")
    ensures HasSuffix(r, ".tmpl")
    ensures var n := |TemplateDir + "/" + titleOrContent + "@" + lang + "/"|;
            |r| == n + |ToUpper(topic)| + 5 && r[n..|r| - 5] == ToUpper(topic)
  {
    var dir := TemplateDir + "/" + titleOrContent + "@" + lang + "/";
    var r := dir + ToUpper(topic) + ".tmpl";
    assert r[..|dir|] == dir;
    assert r[|r| - 5..] == ".tmpl";
    assert r[|dir|..|r| - 5] == ToUpper(topic);
    r
  }

  function ReadTemplateString(files: Files, titleOrContent: string, topic: string, lang: string): (r: Result<string, TemplateError>)
    ensures var p := TemplatePath(titleOrContent, topic, lang);
            (r == Err(NotFound) <==> p !in files.fs || files.fs[p].PathError?)
            && (r.Ok? <==> p in files.fs && files.fs[p].Content?)
            && (r.Ok? ==> r.value == files.fs[p].text)
  {
    var p := TemplatePath(titleOrContent, topic, lang);
    if p !in files.fs then Err(NotFound)
    else match files.fs[p]
      case Content(t) => Ok(t)
      case PathError => Err(NotFound)
      case ReadError(m) => Err(ReadFailed(m))
  }

  function CacheKey(topic: string, titleOrContent: string, lang: string): string {
    topic + "." + titleOrContent + "@" + lang
  }

  /** Cached templates by key. Only parsed templates are ever stored, so a
      stored entry is never empty. */
  type Cache = map<string, Template>

  /** `getTemplate`: a cached template is served as is; otherwise the file
      is read and parsed, and only a successful parse is stored. */
  function GetTemplate(files: Files, cache: Cache, titleOrContent: string, topic: string, lang: string)
    : (r: (Result<Template, TemplateError>, Cache))
    ensures var key := CacheKey(topic, titleOrContent, lang);
            (key in cache ==> r == (Ok(cache[key]), cache))
            && (key !in cache && r.0.Ok? ==> r.1 == cache[key := r.0.value] && r.0.value.key == key)
            && (r.0.Err? ==> r.1 == cache)
            && (key !in cache ==> (r.0 == Err(NotFound) <==> ReadTemplateString(files, titleOrContent, topic, lang) == Err(NotFound)))
    ensures var key := CacheKey(topic, titleOrContent, lang);
            var read := ReadTemplateString(files, titleOrContent, topic, lang);
            key !in cache ==>
              (r.0.Ok? <==> read.Ok? && files.parses(read.value))
              && (r.0.Ok? ==> r.0.value.source == read.value)
              && (read.Err? ==> r.0 == Err(read.error))
              && (read.Ok? && !files.parses(read.value) ==> r.0 == Err(ParseFailed(key)))
  {
    var key := CacheKey(topic, titleOrContent, lang);
    if key in cache then (Ok(cache[key]), cache)
    else
      match ReadTemplateString(files, titleOrContent, topic, lang)
      case Err(e) => (Err(e), cache)
      case Ok(text) =>
        if files.parses(text) then
          var t := Template(key, text);
          (Ok(t), cache[key := t])
        else (Err(ParseFailed(key)), cache)
  }

  /** Asking again right after a lookup gives the same answer and leaves the
      cache as the first lookup left it. */
  lemma GetTemplateIdempotent(files: Files, cache: Cache, titleOrContent: string, topic: string, lang: string)
    requires GetTemplate(files, cache, titleOrContent, topic, lang).0.Ok?
    ensures var first := GetTemplate(files, cache, titleOrContent, topic, lang);
            GetTemplate(files, first.1, titleOrContent, topic, lang) == first
  {
  }

  /** The first non-empty topic whose lookup is not a plain miss decides,
      each lookup taken against the initial cache. */
  function FirstHit(files: Files, cache: Cache, titleOrContent: string, lang: string, topics: seq<string>)
    : Result<Template, TemplateError>
    decreases |topics|
  {
    if |topics| == 0 then Err(NotFound)
    else if topics[0] == "" then FirstHit(files, cache, titleOrContent, lang, topics[1..])
    else
      var r := GetTemplate(files, cache, titleOrContent, topics[0], lang).0;
      if r == Err(NotFound) then FirstHit(files, cache, titleOrContent, lang, topics[1..]) else r
  }

  /** True when every non-empty topic is a plain miss. */
  predicate AllMiss(files: Files, cache: Cache, titleOrContent: string, lang: string, topics: seq<string>) {
    forall i :: 0 <= i < |topics| && topics[i] != "" ==>
      GetTemplate(files, cache, titleOrContent, topics[i], lang).0 == Err(NotFound)
  }

  /** The topic loop of `fillWithTemplate`, threading the cache from one
      lookup to the next. */
  function SearchTopics(files: Files, cache: Cache, titleOrContent: string, lang: string, topics: seq<string>)
    : (r: (Result<Template, TemplateError>, Cache))
    ensures r.0 == FirstHit(files, cache, titleOrContent, lang, topics)
    ensures r.0 == Err(NotFound) <==> AllMiss(files, cache, titleOrContent, lang, topics)
    ensures r.0.Err? ==> r.1 == cache
    ensures r.0.Ok? ==> r.1 == cache || (r.0.value.key !in cache && r.1 == cache[r.0.value.key := r.0.value])
    decreases |topics|
  {
    if |topics| == 0 then (Err(NotFound), cache)
    else if topics[0] == "" then
      var r := SearchTopics(files, cache, titleOrContent, lang, topics[1..]);
      AllMissCons(files, cache, titleOrContent, lang, topics);
      r
    else
      var step := GetTemplate(files, cache, titleOrContent, topics[0], lang);
      AllMissCons(files, cache, titleOrContent, lang, topics);
      if step.0 == Err(NotFound) then SearchTopics(files, step.1, titleOrContent, lang, topics[1..])
      else step
  }

  lemma AllMissCons(files: Files, cache: Cache, titleOrContent: string, lang: string, topics: seq<string>)
    requires |topics| > 0
    ensures AllMiss(files, cache, titleOrContent, lang, topics) <==>
              (topics[0] == "" || GetTemplate(files, cache, titleOrContent, topics[0], lang).0 == Err(NotFound))
              && AllMiss(files, cache, titleOrContent, lang, topics[1..])
  {
    if AllMiss(files, cache, titleOrContent, lang, topics[1..])
       && (topics[0] == "" || GetTemplate(files, cache, titleOrContent, topics[0], lang).0 == Err(NotFound)) {
      forall i | 0 <= i < |topics| && topics[i] != ""
        ensures GetTemplate(files, cache, titleOrContent, topics[i], lang).0 == Err(NotFound)
      {
        if i > 0 {
          assert topics[i] == topics[1..][i - 1];
        }
      }
    }
  }

  // ---------------------------------------------------------- details

  /** The fields of `specFields`: resource types whose details carry
      values worth a translated `_display` companion. */
  function SpecFields(resourceType: string, voc: Vocabulary): Option<seq<string>> {
    if resourceType == voc.scalingPolicy then Some(["trigger_type", "action", "unit"])
    else if resourceType == voc.scheduledTask then Some(["resource_type", "operation"])
    else None
  }

  /** Adds `<field>_display` for each listed field present in `details`. */
  function AddDisplays(details: map<string, string>, fields: seq<string>, translate: string -> string)
    : map<string, string>
    decreases |fields|
  {
    if |fields| == 0 then details
    else
      var f := fields[0];
      var next := if f in details then details[f + "_display" := translate(details[f])] else details;
      AddDisplays(next, fields[1..], translate)
  }

  /** No field of the list is another field's display key, and no field is
      listed twice. */
  predicate DisplaysApart(fields: seq<string>) {
    forall i, j :: 0 <= i < |fields| && 0 <= j < |fields| ==>
      fields[i] + "_display" != fields[j] && (i != j ==> fields[i] != fields[j])
  }

  /** The display keys are added exactly for the listed fields that are
      present, with the translated value, and every other entry stays. */
  lemma {:induction false} AddDisplaysContents(details: map<string, string>, fields: seq<string>, translate: string -> string)
    requires DisplaysApart(fields)
    ensures var r := AddDisplays(details, fields, translate);
            (forall f :: f in fields && f in details ==> f + "_display" in r && r[f + "_display"] == translate(details[f]))
            && (forall k :: k in details && (forall f :: f in fields && f in details ==> k != f + "_display") ==> k in r && r[k] == details[k])
            && (forall k :: k in r ==> k in details || exists f :: f in fields && f in details && k == f + "_display")
    decreases |fields|
  {
    if |fields| > 0 {
      var f := fields[0];
      var next := if f in details then details[f + "_display" := translate(details[f])] else details;
      var rest := fields[1..];
      assert DisplaysApart(rest) by {
        forall i, j | 0 <= i < |rest| && 0 <= j < |rest|
          ensures rest[i] + "_display" != rest[j] && (i != j ==> rest[i] != rest[j])
        {
          assert rest[i] == fields[i + 1] && rest[j] == fields[j + 1];
        }
      }
      forall g | g in rest
        ensures g in next <==> g in details
        ensures g in details ==> next[g] == details[g]
      {
        var j :| 0 <= j < |rest| && rest[j] == g;
        assert fields[j + 1] == g;
        assert f + "_display" != fields[j + 1];
      }
      forall g | g in rest
        ensures g != f
      {
        var j :| 0 <= j < |rest| && rest[j] == g;
        assert fields[j + 1] == g;
      }
      assert f + "_display" != f by {
        assert fields[0] + "_display" != fields[0];
      }
      AddDisplaysContents(next, rest, translate);
      var r := AddDisplays(next, rest, translate);
      if f in details {
        assert f + "_display" !in rest by {
          forall j | 0 <= j < |rest|
            ensures rest[j] != f + "_display"
          {
            assert rest[j] == fields[j + 1];
            assert fields[0] + "_display" != fields[j + 1];
          }
        }
      }
      forall g | g in fields && g in details
        ensures g + "_display" in r && r[g + "_display"] == translate(details[g])
      {
        if g == f {
          forall h | h in rest && h in next
            ensures f + "_display" != h + "_display"
          {
            if f + "_display" == h + "_display" {
              SuffixCancel(f, h, "_display");
            }
          }
        } else {
          assert g in rest;
        }
      }
      forall k | k in r
        ensures k in details || exists g :: g in fields && g in details && k == g + "_display"
      {
        if k !in next || k in details {
        } else {
          assert f in details && k == f + "_display";
          assert f in fields;
        }
      }
    }
  }

  lemma SuffixCancel(a: string, b: string, s: string)
    requires a + s == b + s
    ensures a == b
  {
    assert |a| == |b|;
    assert a == (a + s)[..|a|];
    assert b == (b + s)[..|b|];
  }

  lemma SpecFieldListsApart(resourceType: string, voc: Vocabulary)
    requires SpecFields(resourceType, voc).Some?
    ensures DisplaysApart(SpecFields(resourceType, voc).value)
  {
    var fields := SpecFields(resourceType, voc).value;
    forall i, j | 0 <= i < |fields| && 0 <= j < |fields|
      ensures fields[i] + "_display" != fields[j] && (i != j ==> fields[i] != fields[j])
    {
      var d := fields[i] + "_display";
      if |d| == |fields[j]| {
        assert d[|d| - 1] == 'y';
        assert fields[j][|fields[j]| - 1] != 'y';
      }
    }
  }

  /** `detailsDisplay`: only resource types with special fields gain
      display entries. */
  function DetailsDisplay(resourceType: string, details: map<string, string>, voc: Vocabulary,
                          translate: string -> string): (r: map<string, string>)
    ensures SpecFields(resourceType, voc).None? ==> r == details
    ensures SpecFields(resourceType, voc).Some? ==>
              var fields := SpecFields(resourceType, voc).value;
              (forall f :: f in fields && f in details ==> f + "_display" in r && r[f + "_display"] == translate(details[f]))
              && (forall k :: k in details && (forall f :: f in fields && f in details ==> k != f + "_display") ==> k in r && r[k] == details[k])
              && (forall k :: k in r ==> k in details || exists f :: f in fields && f in details && k == f + "_display")
  {
    match SpecFields(resourceType, voc)
    case None => details
    case Some(fields) =>
      SpecFieldListsApart(resourceType, voc);
      AddDisplaysContents(details, fields, translate);
      AddDisplays(details, fields, translate)
  }

  // ---------------------------------------------------- the whole fill

  /** A parsed notification message. */
  datatype Json = JObject(fields: map<string, string>) | JOther(text: string)

  /** The webhook body: resource type, action, result and details. */
  datatype WebhookMsg = WebhookMsg(resourceType: string, action: string, result: string, details: Json)

  /** What a template is executed with. */
  datatype TemplateParams = TemplateParams(
    msg: WebhookMsg, advanceDays: int,
    resourceTypeDisplay: string, actionDisplay: string, resultDisplay: string)

  datatype Notification = Notification(contactType: string, topic: string, message: string,
                                       event: Event, advanceDays: int)

  datatype SendParams = SendParams(title: string, message: string)

  datatype FillError =
    | BadMessage(message: string)      // the message is not JSON
    | NotAnObject(message: string)     // a failed type assertion: the call panics
    | TemplateFailure(cause: TemplateError)

  /** The collaborators `FillWithTemplate` calls into. */
  datatype Env = Env(
    voc: Vocabulary, files: Files,
    parseJson: string -> Option<Json>, toJson: WebhookMsg -> string,
    contextLang: string,                       // the language of the request context
    lookupName: (Lang, string) -> string,      // the notification i18n table
    translateField: (string, Lang, string) -> string,  // the special-field tables
    execute: (Template, TemplateParams) -> Result<string, string>)

  /** A display name, or the raw string when the table has none. */
  function DisplayOr(name: string, raw: string): (r: string)
    ensures name != "" ==> r == name
    ensures name == "" ==> r == raw
  {
    if |name| == 0 then raw else name
  }

  /** `fillWithTemplate`: the topic search, then execution. */
  function FillOne(env: Env, cache: Cache, titleOrContent: string, lang: string, ev: Event, params: TemplateParams)
    : (r: (Result<string, TemplateError>, Cache))
    ensures var hit := FirstHit(env.files, cache, titleOrContent, lang, Topics(ev, env.voc));
            (r.0 == Err(NotFound) <==> hit == Err(NotFound))
            && (hit.Err? ==> r.0 == Err(hit.error))
            && (hit.Ok? ==> r.0 == (match env.execute(hit.value, params)
                                   case Ok(s) => Ok(s)
                                   case Err(m) => Err(ExecFailed(m))))
  {
    var found := SearchTopics(env.files, cache, titleOrContent, lang, Topics(ev, env.voc));
    match found.0
    case Err(e) => (Err(e), found.1)
    case Ok(t) =>
      match env.execute(t, params)
      case Ok(s) => (Ok(s), found.1)
      case Err(m) => (Err(ExecFailed(m)), found.1)
  }

  /** A missing template falls back to `fallback`; any other failure
      stops the fill. */
  function OrFallback(r: Result<string, TemplateError>, fallback: string): (o: Result<string, TemplateError>)
    ensures r.Ok? ==> o == r
    ensures r == Err(NotFound) ==> o == Ok(fallback)
    ensures r.Err? && r.error != NotFound ==> o == r
  {
    if r == Err(NotFound) then Ok(fallback) else r
  }

  /** `FillWithTemplate`. Returns the send parameters or the error, and the
      template cache afterwards. */
  function FillWithTemplate(env: Env, cache: Cache, lang: string, no: Notification)
    : (r: (Result<SendParams, FillError>, Cache))
    ensures env.parseJson(no.message).None? ==> r == (Err(BadMessage(no.message)), cache)
    ensures env.parseJson(no.message).Some? && no.contactType == env.voc.webhook ==>
              var ev := no.event;
              r == (Ok(SendParams(ev.joined,
                                  env.toJson(WebhookMsg(ev.resourceType, ev.action, ev.result, env.parseJson(no.message).value)))),
                    cache)
    ensures env.parseJson(no.message).Some? && no.contactType != env.voc.webhook && env.parseJson(no.message).value.JOther?
            ==> r.0 == Err(NotAnObject(no.message))
    ensures r.0.Ok? && no.contactType != env.voc.webhook ==>
              var l := if lang == "" then env.contextLang else lang;
              var params := FillParams(env, l, no, env.parseJson(no.message).value.fields);
              (FillOne(env, cache, "title", l, no.event, params).0 == Err(NotFound) ==> r.0.value.title == no.topic)
              && (FillOne(env, cache, "title", l, no.event, params).0.Ok? ==>
                    r.0.value.title == FillOne(env, cache, "title", l, no.event, params).0.value)
    ensures env.parseJson(no.message).Some? && no.contactType != env.voc.webhook && env.parseJson(no.message).value.JObject? ==>
              var l := if lang == "" then env.contextLang else lang;
              var params := FillParams(env, l, no, env.parseJson(no.message).value.fields);
              var title := FillOne(env, cache, "title", l, no.event, params);
              var content := FillOne(env, title.1, "content", l, no.event, params);
              (title.0.Err? && title.0.error != NotFound ==> r.0 == Err(TemplateFailure(title.0.error)))
              && (title.0.Ok? || title.0 == Err(NotFound) ==>
                    (content.0 == Err(NotFound) ==> r.0.Ok? && r.0.value.message == no.message)
                    && (content.0.Ok? ==> r.0.Ok? && r.0.value.message == content.0.value)
                    && (content.0.Err? && content.0.error != NotFound ==> r.0 == Err(TemplateFailure(content.0.error))))
  {
    match env.parseJson(no.message)
    case None => (Err(BadMessage(no.message)), cache)
    case Some(json) =>
      var ev := no.event;
      if no.contactType == env.voc.webhook then
        (Ok(SendParams(ev.joined, env.toJson(WebhookMsg(ev.resourceType, ev.action, ev.result, json)))), cache)
      else if json.JOther? then (Err(NotAnObject(no.message)), cache)
      else
        var l := if |lang| == 0 then env.contextLang else lang;
        var params := FillParams(env, l, no, json.fields);
        var title := FillOne(env, cache, "title", l, ev, params);
        match OrFallback(title.0, no.topic)
        case Err(e) => (Err(TemplateFailure(e)), title.1)
        case Ok(t) =>
          var content := FillOne(env, title.1, "content", l, ev, params);
          match OrFallback(content.0, no.message)
          case Err(e) => (Err(TemplateFailure(e)), content.1)
          case Ok(c) => (Ok(SendParams(t, c)), content.1)
  }

  /** The parameters every template of a notification sees: the webhook
      body with display fields added to its details, and the display
      names of resource type, action and result. */
  function FillParams(env: Env, lang: string, no: Notification, details: map<string, string>): (p: TemplateParams)
    ensures var tag := LanguageTag(lang, env.voc);
            p.resourceTypeDisplay == DisplayOr(env.lookupName(tag, no.event.resourceType), no.event.resourceType)
            && p.actionDisplay == DisplayOr(env.lookupName(tag, no.event.action), no.event.action)
            && p.resultDisplay == DisplayOr(env.lookupName(tag, no.event.result), no.event.result)
            && p.msg.details == JObject(DetailsDisplay(no.event.resourceType, details, env.voc,
                                          v => env.translateField(no.event.resourceType, tag, v)))
            && p.advanceDays == no.advanceDays
  {
    var ev := no.event;
    var tag := LanguageTag(lang, env.voc);
    var shown := DetailsDisplay(ev.resourceType, details, env.voc, v => env.translateField(ev.resourceType, tag, v));
    TemplateParams(
      WebhookMsg(ev.resourceType, ev.action, ev.result, JObject(shown)), no.advanceDays,
      DisplayOr(env.lookupName(tag, ev.resourceType), ev.resourceType),
      DisplayOr(env.lookupName(tag, ev.action), ev.action),
      DisplayOr(env.lookupName(tag, ev.result), ev.result))
  }
}
