/** Reading the multipart form of a voice call: the loop of createVoiceCall in internal/spend/voice.go. */
module VoiceSetup {
  import opened Common
  import Text

  /** One part of the form; data is absent when it could not be read within the size limit. */
  datatype Part = Part(name: string, fileName: string, data: Option<string>)

  /** isObject says whether a text decodes to a JSON object, quote writes a text as a JSON string. */
  datatype Json = Json(isObject: string -> bool, quote: string -> string)

  const BAD_SETUP := 400
  const TOO_LARGE := 413

  predicate Accepted(p: Part, json: Json): (ok: bool)
    ensures ok ==> p.data.Some?
  {
    && p.fileName == "" && p.data.Some?
    && ((p.name == "sdp" && Text.HasPrefix(p.data.value, "v=0")) ||
         (p.name == "session" && json.isObject(p.data.value)))
  }

  function FieldOf(p: Part, json: Json): string
    requires p.data.Some?
  {
    if p.name == "sdp" then json.quote(p.data.value) else p.data.value
  }

  /**
    A call may be set up from this form: one session description and one session, in either order, and nothing else.
  */
  predicate Complete(parts: seq<Part>, broken: bool, json: Json) {
    && !broken && |parts| == 2 && parts[0].name != parts[1].name
    && Accepted(parts[0], json) && Accepted(parts[1], json)
  }

  function NamesOf(parts: seq<Part>): set<string> {
    set p | p in parts :: p.name
  }

  /** The fields read from the first parts. */
  ghost predicate Gathered(fields: map<string, string>, parts: seq<Part>, json: Json) {
    && |fields| == |parts| && fields.Keys == NamesOf(parts)
    && forall p :: p in parts ==> Accepted(p, json) && p.name in fields && fields[p.name] == FieldOf(p, json)
  }

  lemma NamesOfOneMore(parts: seq<Part>, p: Part)
    ensures NamesOf(parts + [p]) == NamesOf(parts) + {p.name}
  {
    assert forall q :: q in parts + [p] <==> q in parts || q == p;
  }

  lemma GatherOne(fields: map<string, string>, parts: seq<Part>, p: Part, json: Json)
    requires Gathered(fields, parts, json) && Accepted(p, json) && p.name !in fields
    ensures p.data.Some? && Gathered(fields[p.name := FieldOf(p, json)], parts + [p], json)
  {
    hide Accepted, FieldOf, NamesOf;
    NamesOfOneMore(parts, p);
    var added := fields[p.name := FieldOf(p, json)];
    assert added.Keys == fields.Keys + {p.name};
    assert |added.Keys| == |fields.Keys| + 1;
    forall q | q in parts + [p]
      ensures Accepted(q, json) && q.name in added && added[q.name] == FieldOf(q, json)
    {
      assert q in parts || q == p;
    }
  }

  lemma Refused(fields: map<string, string>, parts: seq<Part>, k: nat, broken: bool, json: Json)
    requires k < |parts| && Gathered(fields, parts[..k], json)
    requires parts[k].name in fields || !Accepted(parts[k], json)
    ensures !Complete(parts, broken, json)
  {
    if |parts| == 2 && parts[k].name in fields {
      var p :| p in parts[..k] && p.name == parts[k].name;
      assert k == 1 && parts[..k] == [parts[0]];
    }
  }

  lemma AllGathered(fields: map<string, string>, parts: seq<Part>, json: Json)
    requires Gathered(fields, parts, json)
    ensures |fields| == 2 <==> Complete(parts, false, json)
    ensures |fields| == 2 ==> fields.Keys == {"sdp", "session"}
    ensures forall p :: p in parts ==> p.name in fields && p.data.Some? && fields[p.name] == FieldOf(p, json)
  {
    if |parts| == 2 {
      assert parts[0] in parts && parts[1] in parts && parts == [parts[0], parts[1]];
      assert NamesOf(parts) == {parts[0].name, parts[1].name};
      assert |fields.Keys| == 2;

    }
  }

  /** A session description without a file name. */
  predicate Describes(p: Part) {
    p.name == "sdp" && p.fileName == "" && p.data.Some? && |p.data.value| >= 3 && p.data.value[..3] == "v=0"
  }

  /** A JSON object called session, without a file name. */
  predicate SetsUp(p: Part, json: Json) {
    p.name == "session" && p.fileName == "" && p.data.Some? && json.isObject(p.data.value)
  }

  lemma CompleteIsBoth(parts: seq<Part>, broken: bool, json: Json)
    ensures Complete(parts, broken, json) <==>
              && !broken && |parts| == 2
              && ((Describes(parts[0]) && SetsUp(parts[1], json)) || (SetsUp(parts[0], json) && Describes(parts[1])))
  {
    if |parts| == 2 {
      forall i | 0 <= i < 2 && parts[i].data.Some?
        ensures "v=0" <= parts[i].data.value <==> |parts[i].data.value| >= 3 && parts[i].data.value[..3] == "v=0"
      {
      }
    }
  }

  /** broken says that reading ended in an error rather than at the end of the form. */
  method ReadFields(parts: seq<Part>, broken: bool, json: Json) returns (r: Result<map<string, string>, int>)
    ensures r.Ok? <==> Complete(parts, broken, json)
    ensures r.Ok? <==>
              && !broken && |parts| == 2
              && ((Describes(parts[0]) && SetsUp(parts[1], json)) || (SetsUp(parts[0], json) && Describes(parts[1])))
    ensures r.Ok? ==> forall p :: p in parts ==>
              && (Describes(p) ==> "sdp" in r.value && r.value["sdp"] == json.quote(p.data.value))
              && (SetsUp(p, json) ==> "session" in r.value && r.value["session"] == p.data.value)
    ensures r.Ok? ==>
              && r.value.Keys == {"sdp", "session"}
              && forall p :: p in parts ==> p.name in r.value && p.data.Some? && r.value[p.name] == FieldOf(p, json)
    ensures r.Err? ==> r.error == BAD_SETUP || (r.error == TOO_LARGE && exists p :: p in parts && p.data.None?)
  {
    CompleteIsBoth(parts, broken, json);
    hide Gathered, Complete;
    var fields: map<string, string> := map[];
    NothingGathered(json);
    assert parts[..0] == [];
    for k := 0 to |parts|
      invariant Gathered(fields, parts[..k], json)
    {
      var part := parts[k];
      assert parts[..k + 1] == parts[..k] + [part];
      if part.name in fields || !Accepted(part, json) {
        Refused(fields, parts, k, broken, json);
      } else {
        GatherOne(fields, parts[..k], part, json);
      }
      if part.name in fields || (part.name != "sdp" && part.name != "session") || part.fileName != "" {
        return Err(BAD_SETUP);
      }
      if part.data.None? {
        return Err(TOO_LARGE);
      }
      var data := part.data.value;
      if part.name == "sdp" {
        if !Text.HasPrefix(data, "v=0") {
          return Err(BAD_SETUP);
        }
        data := json.quote(data);
      } else if !json.isObject(data) {
        return Err(BAD_SETUP);
      }
      fields := fields[part.name := data];
    }
    assert parts[..|parts|] == parts;
    AllGathered(fields, parts, json);
    if broken {
      BrokenIsRefused(parts, json);
      return Err(BAD_SETUP);
    }
    if |fields| != 2 {
      return Err(BAD_SETUP);
    }
    return Ok(fields);
  }

  lemma NothingGathered(json: Json)
    ensures Gathered(map[], [], json)
  {
  }

  lemma BrokenIsRefused(parts: seq<Part>, json: Json)
    ensures !Complete(parts, true, json)
  {
  }

  // ---- the answer ----

  predicate Plain(c: char) {
    'a' <= c <= 'z' || 'A' <= c <= 'Z' || '0' <= c <= '9' || c == '_' || c == '-'
  }

  /** A name the answer may give the call: one of the router's upstream, or a UUID. */
  predicate NamesCall(id: string) {
    && |id| <= 200 && (forall i :: 0 <= i < |id| ==> Plain(id[i]))
    && ((|id| > 4 && id[..4] == "rtc_") ||
         (|id| == 36 && id[8] == '-' && id[13] == '-' && id[18] == '-' && id[23] == '-'))
  }

  /** voiceCallID: the last part of the location's path that names a call. */
  method CallID(location: string) returns (id: string)
    ensures var parts := Text.Split(location[..Text.IndexOf(location, '?')], '/');
            if exists p :: p in parts && NamesCall(p) then
              exists k :: 0 <= k < |parts| && parts[k] == id && NamesCall(id) &&
                forall i :: k < i < |parts| ==> !NamesCall(parts[i])
            else id == ""
  {
    var parts := Text.Split(location[..Text.IndexOf(location, '?')], '/');
    var i := |parts|;
    while i > 0
      invariant 0 <= i <= |parts| && forall j :: i <= j < |parts| ==> !NamesCall(parts[j])
    {
      i := i - 1;
      id := parts[i];
      // a character of more than one byte makes the id no name, so its length can be taken in characters
      if |id| > 200 {
        continue;
      }
      var valid := Text.HasPrefix(id, "rtc_") && |id| > 4;
      if |id| == 36 && id[8] == '-' && id[13] == '-' && id[18] == '-' && id[23] == '-' {
        valid := true;
      }
      ghost var shaped := valid;
      for k := 0 to |id|
        invariant valid <==> shaped && forall j :: 0 <= j < k ==> Plain(id[j])
      {
        if !Plain(id[k]) {
          valid := false;
        }
      }
      if valid {
        assert NamesCall(parts[i]) && parts[i] in parts;
        return id;
      }
    }
    assert forall p :: p in parts ==> !NamesCall(p);
    return "";
  }
}
