/** The HTTP-backed client of the remote store (`EllAPIClient`).

    Each request method makes one round trip and then decodes the reply.
    The model splits it there: a function builds the request the method
    sends, and a function of the same operation's name turns the reply
    httpx hands back into the method's value or the exception it raises.
    httpx, JSON parsing and pydantic are outside the model: a reply carries
    its status, its raw bytes and the JSON value those bytes parse to. */
module HttpClient {
  import opened Wrappers
  import opened Seqs

  type Byte = b: int | 0 <= b < 256

  /** A decoded JSON value; an object is the decoded dict's items, in order.
      Floating-point numbers are not modelled. */
  datatype Json =
    | JNull
    | JBool(b: bool)
    | JInt(i: int)
    | JStr(s: string)
    | JArray(items: seq<Json>)
    | JObject(entries: seq<(string, Json)>)

  /** The keys of a decoded dict are distinct. */
  predicate DistinctKeys(entries: seq<(string, Json)>)
  {
    forall i, j :: 0 <= i < j < |entries| ==> entries[i].0 != entries[j].0
  }

  /** `d.get(key)` on a decoded dict: the first entry with the key, which on
      a dict with `DistinctKeys` is the only one. */
  function Lookup(entries: seq<(string, Json)>, key: string): (r: Option<Json>)
    ensures r.None? <==> forall i :: 0 <= i < |entries| ==> entries[i].0 != key
    ensures r.Some? ==> exists i :: 0 <= i < |entries| && entries[i] == (key, r.value)
  {
    if entries == [] then None
    else if entries[0].0 == key then Some(entries[0].1)
    else
      assert forall i :: 0 < i < |entries| ==> entries[i] == entries[1..][i - 1];
      Lookup(entries[1..], key)
  }

  // ---------------------------------------------------------------------
  // Python's str() of a decoded JSON value, as an f-string renders it

  function DigitChar(d: nat): char
    requires d < 10
  {
    "0123456789"[d]
  }

  /** The decimal digits of `n`, without leading zeros. */
  function Decimal(n: nat): (r: string)
    ensures |r| > 0 && forall k :: 0 <= k < |r| ==> '0' <= r[k] <= '9'
  {
    if n < 10 then [DigitChar(n)] else Decimal(n / 10) + [DigitChar(n % 10)]
  }

  /** The value a digit character stands for. */
  function DigitValue(c: char): int
  {
    c as int - '0' as int
  }

  /** The number a string of decimal digits denotes, read left to right. */
  function DigitsValue(s: string): int
  {
    if s == [] then 0 else 10 * DigitsValue(s[..|s| - 1]) + DigitValue(s[|s| - 1])
  }

  lemma DigitCharValue(d: nat)
    requires d < 10
    ensures DigitValue(DigitChar(d)) == d
  {
    assert "0123456789"[d] as int == '0' as int + d by {
      if d == 0 {} else if d == 1 {} else if d == 2 {} else if d == 3 {} else if d == 4 {}
      else if d == 5 {} else if d == 6 {} else if d == 7 {} else if d == 8 {} else {}
    }
  }

  /** Reading `Decimal(n)` back as a number gives `n`. */
  lemma {:induction false} DecimalValue(n: nat)
    ensures DigitsValue(Decimal(n)) == n
  {
    if n < 10 {
      DigitCharValue(n);
    } else {
      var init := Decimal(n / 10);
      var s := init + [DigitChar(n % 10)];
      assert s[..|s| - 1] == init;
      DecimalValue(n / 10);
      DigitCharValue(n % 10);
    }
  }

  /** `str(i)`: a leading '-' exactly for negative numbers. */
  function IntText(i: int): (r: string)
    ensures |r| > 0 && (r[0] == '-' <==> i < 0)
  {
    if i < 0 then "-" + Decimal(-i) else Decimal(i)
  }

  /** `str(i)` denotes `i`: its digits, after the sign, read back as `|i|`. */
  lemma IntTextValue(i: int)
    ensures i >= 0 ==> DigitsValue(IntText(i)) == i
    ensures i < 0 ==> DigitsValue(IntText(i)[1..]) == -i
  {
    if i < 0 {
      var d := Decimal(-i);
      assert IntText(i) == "-" + d;
      assert ("-" + d)[1..] == d;
      DecimalValue(-i);
    } else {
      DecimalValue(i);
    }
  }

  /** `repr(j)`; strings are quoted with single quotes and not escaped. */
  function PyRepr(j: Json): (r: string)
    ensures |r| >= 2 || j.JInt?
    ensures j.JStr? ==> r[0] == '\'' && r[|r| - 1] == '\'' && r[1..|r| - 1] == j.s
    ensures j.JArray? ==> r[0] == '[' && r[|r| - 1] == ']'
    ensures j.JObject? ==> r[0] == '{' && r[|r| - 1] == '}'
    ensures j.JInt? ==> r == IntText(j.i)
  {
    match j
    case JNull => "None"
    case JBool(b) => if b then "True" else "False"
    case JInt(i) => IntText(i)
    case JStr(s) => "'" + s + "'"
    case JArray(items) =>
      "[" + Join(seq(|items|, k requires 0 <= k < |items| => PyRepr(items[k])), ", ") + "]"
    case JObject(entries) =>
      "{" + Join(seq(|entries|, k requires 0 <= k < |entries| =>
                       "'" + entries[k].0 + "': " + PyRepr(entries[k].1)), ", ") + "}"
  }

  /** `str(j)`: a string is itself, anything else its `repr`. */
  function PyStr(j: Json): (r: string)
    ensures j.JStr? ==> r == j.s
    ensures j.JNull? ==> r == "None"
    ensures j.JBool? ==> r == if j.b then "True" else "False"
    ensures j.JInt? ==> r == IntText(j.i) && (r[0] == '-' <==> j.i < 0)
    ensures j.JArray? ==> |r| >= 2 && r[0] == '[' && r[|r| - 1] == ']'
    ensures j.JObject? ==> |r| >= 2 && r[0] == '{' && r[|r| - 1] == '}'
    ensures !j.JStr? ==> r == PyRepr(j)
  {
    if j.JStr? then j.s else PyRepr(j)
  }

  /** An empty list renders as "[]", and a one-item list as that item's
      `repr` inside brackets. */
  lemma ReprShortList(x: Json)
    ensures PyRepr(JArray([])) == "[]"
    ensures PyRepr(JArray([x])) == "[" + PyRepr(x) + "]"
  {
    var one := seq(1, k requires 0 <= k < 1 => PyRepr([x][k]));
    assert one == [PyRepr(x)];
    assert Join(one, ", ") == PyRepr(x);
  }

  /** An empty dict renders as "{}", and a one-entry dict as its quoted key,
      ": " and its value's `repr` inside braces. */
  lemma ReprShortDict(key: string, value: Json)
    ensures PyRepr(JObject([])) == "{}"
    ensures PyRepr(JObject([(key, value)])) == "{'" + key + "': " + PyRepr(value) + "}"
  {
    var entries := [(key, value)];
    var entry := seq(1, k requires 0 <= k < 1 => "'" + entries[k].0 + "': " + PyRepr(entries[k].1));
    var e := "'" + key + "': " + PyRepr(value);
    assert entry == [e];
    assert Join(entry, ", ") == e;
    assert PyRepr(JObject(entries)) == "{" + e + "}";
  }

  /** A list of two or more items renders as its first item's `repr`, ", ",
      then the rendering of the remaining list without its opening '['. With
      the one-item case of `PyRepr`, this fixes every list's rendering item by
      item, in order. */
  lemma ReprListCons(x: Json, rest: seq<Json>)
    requires rest != []
    ensures PyRepr(JArray([x] + rest)) == "[" + PyRepr(x) + ", " + PyRepr(JArray(rest))[1..]
  {
    var items := [x] + rest;
    var reprs := seq(|items|, k requires 0 <= k < |items| => PyRepr(items[k]));
    var tail := seq(|rest|, k requires 0 <= k < |rest| => PyRepr(rest[k]));
    assert |reprs| >= 2 && reprs[0] == PyRepr(x);
    assert reprs[1..] == tail;
    assert Join(reprs, ", ") == PyRepr(x) + ", " + Join(tail, ", ");
    var t := Join(tail, ", ");
    assert PyRepr(JArray(rest)) == "[" + t + "]";
    assert ("[" + t + "]")[1..] == t + "]";
  }

  /** The same for a dict of two or more entries: the first `'key': repr`,
      ", ", then the rest of the entries. */
  lemma ReprDictCons(key: string, value: Json, rest: seq<(string, Json)>)
    requires rest != []
    ensures PyRepr(JObject([(key, value)] + rest)) ==
              "{'" + key + "': " + PyRepr(value) + ", " + PyRepr(JObject(rest))[1..]
  {
    var entries := [(key, value)] + rest;
    var reprs := seq(|entries|, k requires 0 <= k < |entries| =>
                       "'" + entries[k].0 + "': " + PyRepr(entries[k].1));
    var tail := seq(|rest|, k requires 0 <= k < |rest| =>
                      "'" + rest[k].0 + "': " + PyRepr(rest[k].1));
    assert reprs[1..] == tail;
    assert Join(reprs, ", ") == reprs[0] + ", " + Join(tail, ", ");
  }

  // ---------------------------------------------------------------------
  // Replies and errors

  /** One HTTP response: status code, raw body, and what `response.json()`
      gives (`None` when the body is not valid JSON). */
  datatype Response = Response(status: int, content: seq<Byte>, json: Option<Json>)

  /** What the round trip produced: a response, or a transport-level
      exception (connection refused, timeout, ...). */
  datatype Reply = Received(response: Response) | TransportFailed

  /** Why reading a body failed: `JSONDecodeError`, a `TypeError` or
      `AttributeError` of the wrong shape, or a `KeyError`. */
  datatype BodyFailure = NotJson | WrongShape | MissingKey(key: string)

  /** The exceptions a client method raises. */
  datatype ClientError =
    | Validation(message: string)   // ValueError raised for a 422 on write_lmp
    | Http(status: int)             // HTTPStatusError from raise_for_status
    | Transport                     // httpx transport error, propagated
    | BadBody(failure: BodyFailure) // decoding the body raised

  /** Statuses `raise_for_status` rejects: everything outside 2xx. */
  predicate IsErrorStatus(status: int)
  {
    !(200 <= status < 300)
  }

  /** `await client.<verb>(...)` followed by `response.raise_for_status()`. */
  function RaiseForStatus(reply: Reply): (r: Result<Response, ClientError>)
    ensures r.Success? <==> reply.Received? && !IsErrorStatus(reply.response.status)
    ensures r.Success? ==> r.value == reply.response
    ensures reply.TransportFailed? ==> r == Failure(Transport)
    ensures reply.Received? && IsErrorStatus(reply.response.status) ==> r == Failure(Http(reply.response.status))
  {
    match reply
    case TransportFailed => Failure(Transport)
    case Received(resp) => if IsErrorStatus(resp.status) then Failure(Http(resp.status)) else Success(resp)
  }

  /** `response.json()`. */
  function ResponseJson(resp: Response): Result<Json, ClientError>
  {
    match resp.json
    case Some(j) => Success(j)
    case None => Failure(BadBody(NotJson))
  }

  /** A method that inspects nothing but `raise_for_status` fails exactly
      as that does. */
  predicate PropagatesFailures<T>(reply: Reply, r: Result<T, ClientError>)
  {
    (reply.TransportFailed? ==> r == Failure(Transport))
    && (reply.Received? && IsErrorStatus(reply.response.status) ==> r == Failure(Http(reply.response.status)))
  }

  // ---------------------------------------------------------------------
  // Requests

  datatype Method = Get | Post

  datatype Body =
    | NoBody
    | JsonBody(json: Json)
    | BlobForm(blob: seq<Byte>, metadata: Option<Json>)

  /** A request relative to the client's base URL. */
  datatype Request = Request(verb: Method, path: string, params: seq<(string, string)>, body: Body)

  /** `GET /lmp/{lmp_id}`: the id is the rest of the path. */
  function GetLmpRequest(lmpId: string): (r: Request)
    ensures r.verb == Get && r.params == [] && r.body == NoBody
    ensures |r.path| >= 5 && r.path[..5] == "/lmp/" && r.path[5..] == lmpId
  {
    Request(Get, "/lmp/" + lmpId, [], NoBody)
  }

  function Strings(items: seq<string>): seq<Json>
  {
    MapSeq(items, (s: string) => JStr(s))
  }

  /** `POST /lmp` with the JSON object whose "lmp" is the dump (`lmp` stands
      for `lmp.model_dump(mode="json")`) and whose "uses" lists the
      dependencies, in the order given. */
  function WriteLmpRequest(lmp: Json, uses: seq<string>): (r: Request)
    ensures r.verb == Post && r.path == "/lmp" && r.params == []
    ensures r.body.JsonBody? && r.body.json.JObject? && DistinctKeys(r.body.json.entries)
    ensures Lookup(r.body.json.entries, "lmp") == Some(lmp)
    ensures Lookup(r.body.json.entries, "uses").Some? && Lookup(r.body.json.entries, "uses").value.JArray?
    ensures var ids := Lookup(r.body.json.entries, "uses").value.items;
            |ids| == |uses| && forall k :: 0 <= k < |uses| ==> ids[k] == JStr(uses[k])
  {
    Request(Post, "/lmp", [], JsonBody(JObject([("lmp", lmp), ("uses", JArray(Strings(uses)))])))
  }

  /** `POST /invocation` with the dump as its JSON body (`input` stands for
      `input.model_dump(mode="json")`). */
  function WriteInvocationRequest(input: Json): (r: Request)
    ensures r.verb == Post && r.path == "/invocation" && r.params == [] && r.body == JsonBody(input)
  {
    Request(Post, "/invocation", [], JsonBody(input))
  }

  /** `POST /blob` with the fields "blob" and "metadata". */
  function StoreBlobRequest(blob: seq<Byte>, metadata: Option<Json>): (r: Request)
    ensures r.verb == Post && r.path == "/blob" && r.params == []
    ensures r.body.BlobForm? && r.body.blob == blob && r.body.metadata == metadata
  {
    Request(Post, "/blob", [], BlobForm(blob, metadata))
  }

  /** `GET /blob/{blob_id}`: the id is the rest of the path. */
  function RetrieveBlobRequest(blobId: string): (r: Request)
    ensures r.verb == Get && r.params == [] && r.body == NoBody
    ensures |r.path| >= 6 && r.path[..6] == "/blob/" && r.path[6..] == blobId
  {
    Request(Get, "/blob/" + blobId, [], NoBody)
  }

  /** `GET /lmp/versions?fqn=...`: the one query parameter is the name. */
  function GetLmpVersionsRequest(fqn: string): (r: Request)
    ensures r.verb == Get && r.path == "/lmp/versions" && r.params == [("fqn", fqn)] && r.body == NoBody
  {
    Request(Get, "/lmp/versions", [("fqn", fqn)], NoBody)
  }

  /** Distinct ids give distinct request paths in this model. (httpx parses
      the path as a URL, so ids holding '?' or '#' are not covered.) */
  lemma DistinctIdsDistinctPaths(a: string, b: string)
    requires a != b
    ensures GetLmpRequest(a).path != GetLmpRequest(b).path
    ensures RetrieveBlobRequest(a).path != RetrieveBlobRequest(b).path
  {
    var p, q := "/lmp/" + a, "/lmp/" + b;
    assert p[5..] == a && q[5..] == b;
    var u, v := "/blob/" + a, "/blob/" + b;
    assert u[6..] == a && v[6..] == b;
  }

  // ---------------------------------------------------------------------
  // Decoding the replies

  /** A server-side LMP record: `LMP(**data)` over a decoded dict. pydantic's
      field validation is not modelled. */
  datatype Lmp = Lmp(fields: seq<(string, Json)>)

  /** `LMP(**data)`: `**` needs a mapping; any other value raises. */
  function LmpFromJson(j: Json): (r: Result<Lmp, ClientError>)
    ensures r.Success? <==> j.JObject?
    ensures r.Success? ==> LmpToJson(r.value) == j
    ensures r.Failure? ==> r.error == BadBody(WrongShape)
  {
    if j.JObject? then Success(Lmp(j.entries)) else Failure(BadBody(WrongShape))
  }

  /** The JSON the server sends for a record. */
  function LmpToJson(l: Lmp): Json
  {
    JObject(l.fields)
  }

  /** `get_lmp`: `None` for a JSON null, else the record built from the body. */
  function GetLmp(reply: Reply): (r: Result<Option<Lmp>, ClientError>)
    ensures PropagatesFailures(reply, r)
    ensures r == Success(None) <==>
              reply.Received? && !IsErrorStatus(reply.response.status) && reply.response.json == Some(JNull)
    ensures r.Success? && r.value.Some? ==>
              reply.Received? && reply.response.json == Some(LmpToJson(r.value.value))
    ensures reply.Received? && !IsErrorStatus(reply.response.status) && r.Failure? ==>
              r.error == BadBody(if reply.response.json.None? then NotJson else WrongShape)
  {
    match RaiseForStatus(reply)
    case Failure(e) => Failure(e)
    case Success(resp) =>
      match ResponseJson(resp)
      case Failure(e) => Failure(e)
      case Success(data) =>
        if data.JNull? then Success(None)
        else
          match LmpFromJson(data)
          case Failure(e) => Failure(e)
          case Success(l) => Success(Some(l))
  }

  /** A record the server sends back is the record `get_lmp` returns. */
  lemma GetLmpReturnsServedRecord(l: Lmp, status: int, content: seq<Byte>)
    requires 200 <= status < 300
    ensures GetLmp(Received(Response(status, content, Some(LmpToJson(l))))) == Success(Some(l))
  {
  }

  const ValidationPrefix: string := "Invalid input: "

  /** The validation message for a 422's detail: `f"Invalid input: {detail}"`,
      the prefix followed by `str(detail)`. */
  function ValidationMessage(detail: Json): (r: string)
    ensures |r| >= |ValidationPrefix| && r[..|ValidationPrefix|] == ValidationPrefix
    ensures r[|ValidationPrefix|..] == PyStr(detail)
    ensures detail.JStr? ==> r[|ValidationPrefix|..] == detail.s
  {
    ValidationPrefix + PyStr(detail)
  }

  /** The default of `.get("detail", ...)`. */
  const NoDetail: string := "No detailed error message provided"

  /** `write_lmp`: a 422 becomes a validation error carrying the server's
      detail; any other error status is re-raised as it is. */
  function WriteLmp(reply: Reply): (r: Result<(), ClientError>)
    ensures PropagatesFailures(reply, r) || (reply.Received? && reply.response.status == 422)
    ensures r.Success? <==> reply.Received? && !IsErrorStatus(reply.response.status)
    ensures r.Failure? && r.error.Validation? ==> reply.Received? && reply.response.status == 422
    ensures r.Failure? ==> r.error != Http(422)
    ensures reply.Received? && reply.response.status == 422 ==>
              match reply.response.json
              case Some(JObject(entries)) =>
                r == Failure(Validation(
                  ValidationPrefix + (match Lookup(entries, "detail")
                                       case Some(d) => PyStr(d)
                                       case None => NoDetail)))
              case Some(_) => r == Failure(BadBody(WrongShape))
              case None => r == Failure(BadBody(NotJson))
  {
    match reply
    case TransportFailed => Failure(Transport)
    case Received(resp) =>
      if !IsErrorStatus(resp.status) then Success(())
      else if resp.status != 422 then Failure(Http(resp.status))
      else
        match resp.json
        case None => Failure(BadBody(NotJson))
        case Some(body) =>
          if body.JObject? then
            var detail := match Lookup(body.entries, "detail") case Some(d) => d case None => JStr(NoDetail);
            Failure(Validation(ValidationMessage(detail)))
          else Failure(BadBody(WrongShape))
  }

  /** A 422 whose body is an object: the message for its detail, or for
      the default text when it has none. */
  lemma RejectionMessage(content: seq<Byte>, entries: seq<(string, Json)>, detail: Json)
    requires Lookup(entries, "detail") == Some(detail)
             || (Lookup(entries, "detail").None? && detail == JStr(NoDetail))
    ensures WriteLmp(Received(Response(422, content, Some(JObject(entries))))) ==
            Failure(Validation(ValidationMessage(detail)))
  {
  }

  /** The message of a 422 without a detail, spelled out. */
  lemma DefaultRejectionText()
    ensures ValidationPrefix + NoDetail == "Invalid input: No detailed error message provided"
  {
  }

  lemma MinusTwelveText()
    ensures IntText(-12) == "-12"
  {
    assert Decimal(1) == "1" && DigitChar(2) == '2';
    assert Decimal(12) == Decimal(1) + [DigitChar(2)];
  }

  /** The rendering of the list detail used below. */
  lemma ListDetailText()
    ensures PyStr(JArray([JInt(-12), JStr("x")])) == "[-12, 'x']"
  {
    var items := [JInt(-12), JStr("x")];
    assert PyRepr(items[0]) == "-12" by {
      MinusTwelveText();
    }
    assert PyRepr(items[1]) == "'x'";
    var reprs := seq(|items|, k requires 0 <= k < |items| => PyRepr(items[k]));
    assert Join(reprs, ", ") == "-12, 'x'" by {
      assert reprs == ["-12", "'x'"];
      assert Join(reprs, ", ") == "-12" + ", " + Join(["'x'"], ", ");
    }
    assert PyRepr(JArray(items)) == "[" + Join(reprs, ", ") + "]";
  }

  /** A 422 whose detail is the string `d` is reported as "Invalid input: "
      followed by `d` verbatim, a kind distinct from the HTTP error a 500
      gives; without a detail the message says none was provided. */
  lemma RejectionIsDistinguishable(d: string, content: seq<Byte>, rest: seq<(string, Json)>)
    requires DistinctKeys([("detail", JStr(d))] + rest)
    ensures var r := WriteLmp(Received(Response(422, content, Some(JObject([("detail", JStr(d))] + rest)))));
            r == Failure(Validation("Invalid input: " + d))
            && r.error.message[|"Invalid input: "|..] == d
    ensures WriteLmp(Received(Response(422, content, Some(JObject([]))))) ==
            Failure(Validation("Invalid input: No detailed error message provided"))
    ensures WriteLmp(Received(Response(500, content, Some(JObject([("detail", JStr(d))] + rest))))) ==
            Failure(Http(500))
  {
    var entries := [("detail", JStr(d))] + rest;
    assert WriteLmp(Received(Response(422, content, Some(JObject(entries))))) ==
           Failure(Validation(ValidationPrefix + d)) by {
      assert entries[0] == ("detail", JStr(d));
      RejectionMessage(content, entries, JStr(d));
    }
    assert (ValidationPrefix + d)[|ValidationPrefix|..] == d;
    assert WriteLmp(Received(Response(422, content, Some(JObject([]))))) ==
           Failure(Validation(ValidationPrefix + NoDetail)) by {
      RejectionMessage(content, [], JStr(NoDetail));
    }
    DefaultRejectionText();
  }

  /** FastAPI's usual 422 detail, a list of objects, is rendered with
      Python's `str`: `detail: null` gives "Invalid input: None". */
  lemma NonStringDetail(content: seq<Byte>)
    ensures WriteLmp(Received(Response(422, content, Some(JObject([("detail", JNull)]))))) ==
            Failure(Validation("Invalid input: None"))
    ensures WriteLmp(Received(Response(422, content, Some(JObject([("detail", JArray([JInt(-12), JStr("x")]))]))))) ==
            Failure(Validation("Invalid input: [-12, 'x']"))
  {
    RejectionMessage(content, [("detail", JNull)], JNull);
    assert ValidationMessage(JNull) == "Invalid input: None";
    var list := JArray([JInt(-12), JStr("x")]);
    RejectionMessage(content, [("detail", list)], list);
    ListDetailText();
    assert ValidationMessage(list) == "Invalid input: [-12, 'x']";
  }

  /** `write_invocation`: nothing but `raise_for_status`. */
  function WriteInvocation(reply: Reply): (r: Result<(), ClientError>)
    ensures PropagatesFailures(reply, r)
    ensures r.Success? <==> reply.Received? && !IsErrorStatus(reply.response.status)
  {
    match RaiseForStatus(reply)
    case Failure(e) => Failure(e)
    case Success(_) => Success(())
  }

  /** `response.json()["blob_id"]`: the value under "blob_id" of a dict; a
      missing key raises `KeyError`, a body that is not a dict `TypeError`. */
  function StoreBlob(reply: Reply): (r: Result<Json, ClientError>)
    ensures PropagatesFailures(reply, r)
    ensures r.Success? <==>
              reply.Received? && !IsErrorStatus(reply.response.status)
              && reply.response.json.Some? && reply.response.json.value.JObject?
              && exists i :: 0 <= i < |reply.response.json.value.entries|
                             && reply.response.json.value.entries[i].0 == "blob_id"
    ensures r.Success? ==> exists i :: 0 <= i < |reply.response.json.value.entries|
                                       && reply.response.json.value.entries[i] == ("blob_id", r.value)
    ensures reply.Received? && !IsErrorStatus(reply.response.status) && r.Failure? ==>
              r.error == BadBody(if reply.response.json.None? then NotJson
                                 else if reply.response.json.value.JObject? then MissingKey("blob_id")
                                 else WrongShape)
  {
    match RaiseForStatus(reply)
    case Failure(e) => Failure(e)
    case Success(resp) =>
      match ResponseJson(resp)
      case Failure(e) => Failure(e)
      case Success(data) =>
        if !data.JObject? then Failure(BadBody(WrongShape))
        else
          match Lookup(data.entries, "blob_id")
          case Some(id) => Success(id)
          case None => Failure(BadBody(MissingKey("blob_id")))
  }

  /** `retrieve_blob`: the response bytes, untouched. */
  function RetrieveBlob(reply: Reply): (r: Result<seq<Byte>, ClientError>)
    ensures PropagatesFailures(reply, r)
    ensures r.Success? <==> reply.Received? && !IsErrorStatus(reply.response.status)
    ensures r.Success? ==> r.value == reply.response.content
  {
    match RaiseForStatus(reply)
    case Failure(e) => Failure(e)
    case Success(resp) => Success(resp.content)
  }

  /** `[LMP(**x) for x in items]`, stopping at the first element that is
      not a dict. */
  function LmpsFromArray(items: seq<Json>): (r: Result<seq<Lmp>, ClientError>)
    ensures r.Success? <==> forall i :: 0 <= i < |items| ==> items[i].JObject?
    ensures r.Success? ==> |r.value| == |items| && forall i :: 0 <= i < |items| ==> LmpToJson(r.value[i]) == items[i]
    ensures r.Failure? ==> r.error == BadBody(WrongShape)
  {
    if items == [] then Success([])
    else
      assert forall i :: 0 < i < |items| ==> items[i] == items[1..][i - 1];
      match LmpFromJson(items[0])
      case Failure(e) => Failure(e)
      case Success(l) =>
        match LmpsFromArray(items[1..])
        case Failure(e) => Failure(e)
        case Success(ls) => Success([l] + ls)
  }

  /** `get_lmp_versions`: one record per element of the list, in order.
      Iterating an empty dict or an empty string also yields []; other
      bodies raise `TypeError`. */
  function GetLmpVersions(reply: Reply): (r: Result<seq<Lmp>, ClientError>)
    ensures PropagatesFailures(reply, r)
    ensures r.Success? ==> reply.Received? && reply.response.json.Some?
    ensures r.Success? && reply.response.json.value.JArray? ==>
              |r.value| == |reply.response.json.value.items|
              && forall i :: 0 <= i < |r.value| ==> LmpToJson(r.value[i]) == reply.response.json.value.items[i]
    ensures r.Success? && !reply.response.json.value.JArray? ==> r.value == []
    ensures reply.Received? && !IsErrorStatus(reply.response.status) ==>
              (r.Success? <==>
                 match reply.response.json
                 case Some(JArray(items)) => forall i :: 0 <= i < |items| ==> items[i].JObject?
                 case Some(JObject(e)) => e == []
                 case Some(JStr(s)) => s == ""
                 case _ => false)
    ensures reply.Received? && !IsErrorStatus(reply.response.status) && r.Failure? ==>
              r.error == BadBody(if reply.response.json.None? then NotJson else WrongShape)
  {
    match RaiseForStatus(reply)
    case Failure(e) => Failure(e)
    case Success(resp) =>
      match ResponseJson(resp)
      case Failure(e) => Failure(e)
      case Success(data) =>
        match data
        case JArray(items) => LmpsFromArray(items)
        case JObject(entries) => if entries == [] then Success([]) else Failure(BadBody(WrongShape))
        case JStr(s) => if s == "" then Success([]) else Failure(BadBody(WrongShape))
        case _ => Failure(BadBody(WrongShape))
  }

  /** The records the server lists are the records returned, in order. */
  lemma {:induction false} VersionsReturnServedRecords(ls: seq<Lmp>, status: int, content: seq<Byte>)
    requires 200 <= status < 300
    ensures GetLmpVersions(Received(Response(status, content, Some(JArray(MapSeq(ls, LmpToJson)))))) == Success(ls)
  {
    var items := MapSeq(ls, LmpToJson);
    var r := LmpsFromArray(items);
    assert r.Success?;
    assert |r.value| == |ls|;
    forall i | 0 <= i < |ls| ensures r.value[i] == ls[i] {
      assert LmpToJson(r.value[i]) == LmpToJson(ls[i]);
    }
    assert r.value == ls;
  }

  // ---------------------------------------------------------------------
  // The client object

  datatype ConnectionState = Open | Closed

  /** `EllAPIClient`: the base URL and the httpx connection pool it owns. */
  class EllApiClient {
    const baseUrl: string
    var connection: ConnectionState

    constructor (baseUrl: string)
      ensures this.baseUrl == baseUrl && connection == Open
    {
      this.baseUrl := baseUrl;
      connection := Open;
    }

    /** `close`: `await self.client.aclose()`. */
    method Close()
      modifies this
      ensures connection == Closed
    {
      connection := Closed;
    }
  }
}
