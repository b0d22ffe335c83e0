/**
 * ErrorSerializer (app/serializers/error_serializer.rb): wraps an error
 * object (a message, possibly nil, and a numeric status code) into the
 * `{errors: [{status, title}]}` document, or under a bare `data` key.
 */
module ErrorSerializer {
  import opened Wrappers
  import opened Text
  import opened Json

  datatype ErrorMessage = ErrorMessage(message: Option<string>, statusCode: int)

  /** A possibly-nil message as a JSON value. */
  function MessageJson(message: Option<string>): Json
  {
    match message
    case Some(s) => JStr(s)
    case None => JNull
  }

  /** `serialize_json`: one error entry, its status the code in decimal and its title the message. */
  function SerializeJson(e: ErrorMessage): (r: Json)
    ensures r.JObj? && Keys(r.fields) == ["errors"]
  {
    JObj([("errors", JArr([ErrorEntry(e)]))])
  }

  /** The single entry of `serialize_json`: `{status: code.to_s, title: message}`. */
  function ErrorEntry(e: ErrorMessage): (r: Json)
    ensures r.JObj? && Keys(r.fields) == ["status", "title"]
  {
    JObj([("status", JStr(IntToString(e.statusCode))), ("title", MessageJson(e.message))])
  }

  /** The error entries of an errors document. */
  function Errors(doc: Json): Option<seq<Json>>
  {
    match Get(doc, "errors")
    case Some(JArr(entries)) => Some(entries)
    case _ => None
  }

  /** Reads an error object back from one error entry. */
  function ErrorFromEntry(entry: Json): Option<ErrorMessage>
  {
    match (Get(entry, "status"), Get(entry, "title"))
    case (Some(JStr(status)), Some(title)) =>
      (match (ParseInt(status), title)
       case (Some(code), JStr(s)) => Some(ErrorMessage(Some(s), code))
       case (Some(code), JNull) => Some(ErrorMessage(None, code))
       case _ => None)
    case _ => None
  }

  /**
   * The document of `serialize_json` has exactly one error entry, with the
   * keys status and title; the status is the decimal string of the code
   * (404 gives "404") and parses back to it; the title is the message,
   * nil included; so the error object can be read back unchanged.
   */
  lemma SerializeJsonShape(e: ErrorMessage)
    ensures Errors(SerializeJson(e)).Some? && |Errors(SerializeJson(e)).value| == 1
    ensures Keys(Errors(SerializeJson(e)).value[0].fields) == ["status", "title"]
    ensures Get(Errors(SerializeJson(e)).value[0], "status") == Some(JStr(IntToString(e.statusCode)))
    ensures ParseInt(IntToString(e.statusCode)) == Some(e.statusCode)
    ensures Get(Errors(SerializeJson(e)).value[0], "title") == Some(MessageJson(e.message))
    ensures ErrorFromEntry(Errors(SerializeJson(e)).value[0]) == Some(e)
  {
    assert Get(SerializeJson(e), "errors") == Some(JArr([ErrorEntry(e)])) by {
      LookupAt(SerializeJson(e).fields, 0);
    }
    ErrorEntryRoundTrip(e);
  }

  /** The status and title of an entry are found under their keys, and the error object reads back from them. */
  lemma ErrorEntryRoundTrip(e: ErrorMessage)
    ensures Get(ErrorEntry(e), "status") == Some(JStr(IntToString(e.statusCode)))
    ensures ParseInt(IntToString(e.statusCode)) == Some(e.statusCode)
    ensures Get(ErrorEntry(e), "title") == Some(MessageJson(e.message))
    ensures ErrorFromEntry(ErrorEntry(e)) == Some(e)
  {
    IntToStringRoundTrip(e.statusCode);
    LookupAt(ErrorEntry(e).fields, 0);
    LookupAt(ErrorEntry(e).fields, 1);
  }

  /** `data_serialize`: the error object as a hash of its two attributes, under the single key `data`. */
  function DataSerialize(e: ErrorMessage): (r: Json)
    ensures r.JObj? && Keys(r.fields) == ["data"]
  {
    JObj([("data", JObj([("message", MessageJson(e.message)), ("status_code", JInt(e.statusCode))]))])
  }

  /** Reads an error object back from a `data` document. */
  function ErrorFromData(doc: Json): Option<ErrorMessage>
  {
    match Get(doc, "data")
    case Some(obj) =>
      (match (Get(obj, "message"), Get(obj, "status_code"))
       case (Some(JStr(s)), Some(JInt(code))) => Some(ErrorMessage(Some(s), code))
       case (Some(JNull), Some(JInt(code))) => Some(ErrorMessage(None, code))
       case _ => None)
    case None => None
  }

  /** `data_serialize` keeps the error object unchanged under `data`. */
  lemma DataSerializeRoundTrip(e: ErrorMessage)
    ensures ErrorFromData(DataSerialize(e)) == Some(e)
  {
    var obj := JObj([("message", MessageJson(e.message)), ("status_code", JInt(e.statusCode))]);
    LookupAt(obj.fields, 0);
    LookupAt(obj.fields, 1);
  }

  /** The 404 example of the request specs: status "404" and the message as title. */
  lemma NotFoundExample()
    ensures Get(Errors(SerializeJson(ErrorMessage(Some("Couldn't find Item with 'id'=1"), 404))).value[0], "status")
         == Some(JStr("404"))
  {
    assert IntToString(404) == "404";
  }
}
