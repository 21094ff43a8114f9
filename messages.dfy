/** Content blocks and chat messages of the TypeScript client
    (`ContentBlock`, `coerceContentList`, `Message` and the role helpers).

    A block is a record of seven optional fields. JavaScript tells a field
    that is missing (`undefined`) from one that is `null`, and the code does
    too: validation ignores both, `type` only ignores `undefined`. So each
    field is a `Slot`. Blocks and messages are values; a thrown `Error` is a
    `Failure`. */
module Messages {
  import opened Wrappers
  import opened Seqs

  /** One property of a JavaScript object. */
  datatype Slot<+T> = Undefined | Null | Value(v: T)

  /** `value !== null && value !== undefined` */
  predicate IsSet<T>(s: Slot<T>)
  {
    s.Value?
  }

  /** `value !== undefined` */
  predicate IsDefined<T>(s: Slot<T>)
  {
    !s.Undefined?
  }

  /** An image: a string (URL or data) or an opaque image object. */
  datatype Image = ImageString(s: string) | ImageObject(handle: nat)
  /** A `number[]` or `Float32Array`; its samples are not modelled. */
  datatype Audio = Audio(handle: nat)
  /** A tool call; the tool function and its parameters are opaque. */
  datatype ToolCall = ToolCall(tool: nat, params: nat, toolCallId: Option<string>)
  /** An instance of `BaseModel` (parsed structured output). */
  datatype Model = Model(handle: nat)

  datatype ContentBlock = ContentBlock(
    text: Slot<string>,
    image: Slot<Image>,
    imageDetail: Slot<string>,
    audio: Slot<Audio>,
    toolCall: Slot<ToolCall>,
    parsed: Slot<Model>,
    toolResult: Slot<ToolResult>)

  datatype ToolResult = ToolResult(toolCallId: string, result: seq<ContentBlock>)

  /** The thrown errors. */
  datatype MessageError =
    | TooManyFields(found: seq<string>)
    | InvalidContentType(typeName: string)

  const TooManyFieldsPrefix: string :=
    "Only one field can be non-null (except for image with image_detail). Found: "
  const InvalidContentTypePrefix: string := "Invalid content type: "

  /** The text of each thrown `Error`: a fixed sentence, then the offending
      field names joined with ", ", or the offending `typeof`. */
  function ErrorText(e: MessageError): (r: string)
    ensures e.TooManyFields? ==>
              |r| >= |TooManyFieldsPrefix| && r[..|TooManyFieldsPrefix|] == TooManyFieldsPrefix
              && r[|TooManyFieldsPrefix|..] == Join(e.found, ", ")
    ensures e.InvalidContentType? ==>
              |r| >= |InvalidContentTypePrefix| && r[..|InvalidContentTypePrefix|] == InvalidContentTypePrefix
              && r[|InvalidContentTypePrefix|..] == e.typeName
  {
    match e
    case TooManyFields(found) =>
      TooManyFieldsPrefix + Join(found, ", ")
    case InvalidContentType(t) => InvalidContentTypePrefix + t
  }

  /** The block with every field missing: `new ContentBlock({})`'s data. */
  const NoFields: ContentBlock :=
    ContentBlock(Undefined, Undefined, Undefined, Undefined, Undefined, Undefined, Undefined)

  /** The field names, in declaration order. */
  const FieldNames: seq<string> :=
    ["text", "image", "image_detail", "audio", "tool_call", "parsed", "tool_result"]

  /** Whether the named field is neither null nor undefined. */
  predicate FieldIsSet(b: ContentBlock, name: string)
  {
    match name
    case "text" => IsSet(b.text)
    case "image" => IsSet(b.image)
    case "image_detail" => IsSet(b.imageDetail)
    case "audio" => IsSet(b.audio)
    case "tool_call" => IsSet(b.toolCall)
    case "parsed" => IsSet(b.parsed)
    case "tool_result" => IsSet(b.toolResult)
    case _ => false
  }

  /** Whether the named field is not undefined. */
  predicate FieldIsDefined(b: ContentBlock, name: string)
  {
    match name
    case "text" => IsDefined(b.text)
    case "image" => IsDefined(b.image)
    case "image_detail" => IsDefined(b.imageDetail)
    case "audio" => IsDefined(b.audio)
    case "tool_call" => IsDefined(b.toolCall)
    case "parsed" => IsDefined(b.parsed)
    case "tool_result" => IsDefined(b.toolResult)
    case _ => false
  }

  function Named(b: ContentBlock, name: string): seq<string>
  {
    if FieldIsSet(b, name) then [name] else []
  }

  /** The keys of `Object.entries(this)` whose values are neither null nor
      undefined, in declaration order. */
  function NonNullFields(b: ContentBlock): seq<string>
  {
    Named(b, "text") + Named(b, "image") + Named(b, "image_detail") + Named(b, "audio")
    + Named(b, "tool_call") + Named(b, "parsed") + Named(b, "tool_result")
  }

  /** The listed fields are exactly the set ones. */
  lemma NonNullFieldsExact(b: ContentBlock)
    ensures forall n :: n in NonNullFields(b) <==> n in FieldNames && FieldIsSet(b, n)
  {
    forall n ensures n in NonNullFields(b) <==> n in FieldNames && FieldIsSet(b, n) {
      assert n in NonNullFields(b) <==>
             n in Named(b, "text") || n in Named(b, "image") || n in Named(b, "image_detail")
             || n in Named(b, "audio") || n in Named(b, "tool_call") || n in Named(b, "parsed")
             || n in Named(b, "tool_result");
    }
  }

  /** What `validateSingleNonNull` accepts: at most one set field, or
      exactly `image` and `image_detail`. */
  predicate WellFormed(b: ContentBlock): (r: bool)
    ensures r <==> |NonNullFields(b)| <= 1 || NonNullFields(b) == ["image", "image_detail"]
  {
    var found := NonNullFields(b);
    |found| <= 1 || (|found| == 2 && "image" in found && "image_detail" in found)
  }

  /** `new ContentBlock(data)`: copy every field of `data`, then validate. */
  function NewBlock(data: ContentBlock): (r: Result<ContentBlock, MessageError>)
    ensures r.Success? <==> WellFormed(data)
    ensures r.Success? ==> r.value == data
    ensures r.Failure? ==> r.error == TooManyFields(NonNullFields(data)) && |r.error.found| >= 2
  {
    if WellFormed(data) then Success(data) else Failure(TooManyFields(NonNullFields(data)))
  }

  /** Validation in pairwise terms: a block is accepted exactly when no two
      distinct fields are both set, except that `image` may have
      `image_detail` beside it. */
  lemma WellFormedIffPairwise(b: ContentBlock)
    ensures WellFormed(b) <==>
            forall i, j :: 0 <= i < j < |FieldNames| && FieldIsSet(b, FieldNames[i]) && FieldIsSet(b, FieldNames[j])
                           ==> FieldNames[i] == "image" && FieldNames[j] == "image_detail"
  {
    var names := FieldNames;
    assert names[0] == "text" && names[1] == "image" && names[2] == "image_detail" && names[3] == "audio";
    assert names[4] == "tool_call" && names[5] == "parsed" && names[6] == "tool_result";
    var count := (if IsSet(b.text) then 1 else 0) + (if IsSet(b.image) then 1 else 0)
                 + (if IsSet(b.imageDetail) then 1 else 0) + (if IsSet(b.audio) then 1 else 0)
                 + (if IsSet(b.toolCall) then 1 else 0) + (if IsSet(b.parsed) then 1 else 0)
                 + (if IsSet(b.toolResult) then 1 else 0);
    var found := NonNullFields(b);
    assert |found| == count;
    var others := IsSet(b.text) || IsSet(b.audio) || IsSet(b.toolCall) || IsSet(b.parsed) || IsSet(b.toolResult);
    if |found| == 2 && "image" in found && "image_detail" in found {
      assert IsSet(b.image) && IsSet(b.imageDetail) && !others;
    }
    if IsSet(b.image) && IsSet(b.imageDetail) && !others {
      assert found == ["image", "image_detail"];
    }
    assert WellFormed(b) <==> count <= 1 || (IsSet(b.image) && IsSet(b.imageDetail) && !others);
  }

  /** The type tags, in the priority order `type` tests them. */
  const TypeOrder: seq<string> := ["text", "image", "audio", "tool_call", "parsed", "tool_result"]

  /** The `type` getter: the first field in priority order that is not
      undefined (`image_detail` is not one of them), or null. */
  function Type(b: ContentBlock): (r: Option<string>)
    ensures r.None? <==> forall k :: 0 <= k < |TypeOrder| ==> !FieldIsDefined(b, TypeOrder[k])
    ensures forall k :: 0 <= k < |TypeOrder| && FieldIsDefined(b, TypeOrder[k])
                        && (forall j :: 0 <= j < k ==> !FieldIsDefined(b, TypeOrder[j]))
                        ==> r == Some(TypeOrder[k])
  {
    assert TypeOrder[0] == "text" && TypeOrder[1] == "image" && TypeOrder[2] == "audio";
    assert TypeOrder[3] == "tool_call" && TypeOrder[4] == "parsed" && TypeOrder[5] == "tool_result";
    if IsDefined(b.text) then Some("text")
    else if IsDefined(b.image) then Some("image")
    else if IsDefined(b.audio) then Some("audio")
    else if IsDefined(b.toolCall) then Some("tool_call")
    else if IsDefined(b.parsed) then Some("parsed")
    else if IsDefined(b.toolResult) then Some("tool_result")
    else None
  }

  /** `${type}` in a template literal. */
  function TypeLabel(t: Option<string>): string
  {
    match t
    case Some(s) => s
    case None => "null"
  }

  /** A block holding only `image_detail` has no type; a null text still
      makes the type "text", although validation ignores it. */
  lemma TypeEdgeCases()
    ensures Type(NoFields.(imageDetail := Value("high"))) == None
    ensures Type(NoFields.(text := Null, image := Value(ImageObject(0)))) == Some("text")
    ensures WellFormed(NoFields.(text := Null, image := Value(ImageObject(0))))
  {
  }

  // ---------------------------------------------------------------------
  // Coercion

  /** The values `ContentBlock.coerce` can be given; `OtherValue` is anything
      else, with its `typeof`. */
  datatype ContentValue =
    | BlockValue(block: ContentBlock)
    | StringValue(s: string)
    | ToolCallValue(call: ToolCall)
    | ToolResultValue(result: ToolResult)
    | ModelValue(model: Model)
    | OtherValue(typeName: string)

  /** `ContentBlock.coerce`. A value that reaches the `instanceof Image` test
      fails, as at the final `throw`. */
  function Coerce(v: ContentValue): (r: Result<ContentBlock, MessageError>)
    ensures v.BlockValue? ==> r == Success(v.block)
    ensures v.OtherValue? ==> r == Failure(InvalidContentType(v.typeName))
    ensures !v.BlockValue? && !v.OtherValue? ==> r.Success? && WellFormed(r.value) && |NonNullFields(r.value)| == 1
    ensures v.StringValue? ==> r == Success(NoFields.(text := Value(v.s)))
    ensures v.ToolCallValue? ==> r == Success(NoFields.(toolCall := Value(v.call)))
    ensures v.ToolResultValue? ==> r == Success(NoFields.(toolResult := Value(v.result)))
    ensures v.ModelValue? ==> r == Success(NoFields.(parsed := Value(v.model)))
  {
    match v
    case BlockValue(b) => Success(b)
    case StringValue(s) => NewBlock(NoFields.(text := Value(s)))
    case ToolCallValue(c) => NewBlock(NoFields.(toolCall := Value(c)))
    case ToolResultValue(t) => NewBlock(NoFields.(toolResult := Value(t)))
    case ModelValue(m) => NewBlock(NoFields.(parsed := Value(m)))
    case OtherValue(t) => Failure(InvalidContentType(t))
  }

  /** Each kind of value is wrapped in a block whose type names that kind
      and whose one field holds the value. */
  lemma CoercedBlockTypes(s: string, c: ToolCall, t: ToolResult, m: Model)
    ensures Type(Coerce(StringValue(s)).value) == Some("text")
    ensures Type(Coerce(ToolCallValue(c)).value) == Some("tool_call")
    ensures Type(Coerce(ToolResultValue(t)).value) == Some("tool_result")
    ensures Type(Coerce(ModelValue(m)).value) == Some("parsed")
  {
  }

  /** `values.map(c => ContentBlock.coerce(c))`: stops at the first value
      that throws. */
  function CoerceEach(values: seq<ContentValue>): (r: Result<seq<ContentBlock>, MessageError>)
    ensures r.Success? <==> forall i :: 0 <= i < |values| ==> Coerce(values[i]).Success?
    ensures r.Success? ==> |r.value| == |values|
                           && forall i :: 0 <= i < |values| ==> r.value[i] == Coerce(values[i]).value
    ensures r.Failure? ==> exists i :: 0 <= i < |values| && Coerce(values[i]) == Failure(r.error)
                                       && forall j :: 0 <= j < i ==> Coerce(values[j]).Success?
  {
    if values == [] then Success([])
    else
      match Coerce(values[0])
      case Failure(e) => Failure(e)
      case Success(b) =>
        match CoerceEach(values[1..])
        case Failure(e) =>
          assert forall i :: 0 < i < |values| ==> values[i] == values[1..][i - 1];
          Failure(e)
        case Success(bs) =>
          assert forall i :: 0 < i < |values| ==> values[i] == values[1..][i - 1];
          Success([b] + bs)
  }

  /** The `content` argument: missing, a string, or an array. */
  datatype ContentArg = Missing | StringArg(s: string) | ArrayArg(values: seq<ContentValue>)

  /** `!content`: undefined and the empty string; an array, even `[]`, is truthy. */
  predicate Falsy(content: ContentArg)
  {
    content.Missing? || content == StringArg("")
  }

  /** `coerceContentList(content, contentBlockKwargs)`. */
  function CoerceContentList(content: ContentArg, kwargs: ContentBlock): (r: Result<seq<ContentBlock>, MessageError>)
    ensures Falsy(content) ==> (r.Success? <==> WellFormed(kwargs)) && (r.Success? ==> r.value == [kwargs])
    ensures content.StringArg? && content.s != "" ==> r == Success([NoFields.(text := Value(content.s))])
    ensures content.ArrayArg? ==>
              (r.Success? <==> forall i :: 0 <= i < |content.values| ==> Coerce(content.values[i]).Success?)
    ensures content.ArrayArg? && r.Success? ==>
              |r.value| == |content.values|
              && forall i :: 0 <= i < |content.values| ==> r.value[i] == Coerce(content.values[i]).value
    ensures Falsy(content) && r.Failure? ==> r.error == TooManyFields(NonNullFields(kwargs))
    ensures content.ArrayArg? && r.Failure? ==>
              exists i :: 0 <= i < |content.values| && Coerce(content.values[i]) == Failure(r.error)
                          && forall j :: 0 <= j < i ==> Coerce(content.values[j]).Success?
  {
    if Falsy(content) then
      match NewBlock(kwargs)
      case Success(b) => Success([b])
      case Failure(e) => Failure(e)
    else
      if content.StringArg? then
        var r := CoerceEach([StringValue(content.s)]);
        assert r.Success? && r.value[0] == NoFields.(text := Value(content.s));
        assert r.value == [NoFields.(text := Value(content.s))];
        r
      else
        CoerceEach(content.values)
  }

  // ---------------------------------------------------------------------
  // Messages

  datatype Message = Message(role: string, content: seq<ContentBlock>)

  /** `new Message(role, content, contentBlockKwargs)`. */
  function NewMessage(role: string, content: ContentArg, kwargs: ContentBlock): (r: Result<Message, MessageError>)
    ensures r.Success? <==> CoerceContentList(content, kwargs).Success?
    ensures r.Success? ==> r.value.role == role && r.value.content == CoerceContentList(content, kwargs).value
  {
    match CoerceContentList(content, kwargs)
    case Success(blocks) => Success(Message(role, blocks))
    case Failure(e) => Failure(e)
  }

  /** Every block of a constructed message passes validation when the blocks
      handed in already did; an array keeps its length and order, and
      anything else becomes exactly one block. */
  lemma NewMessageBlocks(role: string, content: ContentArg, kwargs: ContentBlock)
    requires content.ArrayArg? ==>
               forall i :: 0 <= i < |content.values| && content.values[i].BlockValue? ==>
                 WellFormed(content.values[i].block)
    ensures var r := NewMessage(role, content, kwargs);
            r.Success? ==> forall i :: 0 <= i < |r.value.content| ==> WellFormed(r.value.content[i])
    ensures var r := NewMessage(role, content, kwargs);
            r.Success? ==> |r.value.content| == if content.ArrayArg? then |content.values| else 1
  {
    var r := NewMessage(role, content, kwargs);
    if r.Success? && content.ArrayArg? {
      forall i | 0 <= i < |r.value.content| ensures WellFormed(r.value.content[i]) {
        assert r.value.content[i] == Coerce(content.values[i]).value;
      }
    }
  }

  /** `system(content)`. */
  function System(content: ContentArg): (r: Result<Message, MessageError>)
    ensures r.Success? <==> CoerceContentList(content, NoFields).Success?
    ensures r.Success? ==> r.value == Message("system", CoerceContentList(content, NoFields).value)
  {
    NewMessage("system", content, NoFields)
  }

  /** `user(content)`. */
  function User(content: ContentArg): (r: Result<Message, MessageError>)
    ensures r.Success? <==> CoerceContentList(content, NoFields).Success?
    ensures r.Success? ==> r.value == Message("user", CoerceContentList(content, NoFields).value)
  {
    NewMessage("user", content, NoFields)
  }

  /** `assistant(content)`. */
  function Assistant(content: ContentArg): (r: Result<Message, MessageError>)
    ensures r.Success? <==> CoerceContentList(content, NoFields).Success?
    ensures r.Success? ==> r.value == Message("assistant", CoerceContentList(content, NoFields).value)
  {
    NewMessage("assistant", content, NoFields)
  }

  /** A role helper given no content still builds one (empty) block, since
      `{}` passes validation. */
  lemma HelperWithoutContent()
    ensures System(Missing) == Success(Message("system", [NoFields]))
    ensures User(StringArg("")) == Success(Message("user", [NoFields]))
  {
  }

  // ---------------------------------------------------------------------
  // Getters

  /** The truthy value of each field a getter filters on: a non-empty
      string; an image string when non-empty, an image object always;
      audio arrays, tool calls, tool results and models always (objects). */
  function TruthyText(c: ContentBlock): Option<string>
  {
    if c.text.Value? && c.text.v != "" then Some(c.text.v) else None
  }

  function TruthyImage(c: ContentBlock): Option<Image>
  {
    match c.image
    case Value(ImageString(s)) => if s != "" then Some(ImageString(s)) else None
    case Value(ImageObject(h)) => Some(ImageObject(h))
    case _ => None
  }

  function TruthyAudio(c: ContentBlock): Option<Audio>
  {
    if c.audio.Value? then Some(c.audio.v) else None
  }

  function TruthyToolCall(c: ContentBlock): Option<ToolCall>
  {
    if c.toolCall.Value? then Some(c.toolCall.v) else None
  }

  function TruthyToolResult(c: ContentBlock): Option<ToolResult>
  {
    if c.toolResult.Value? then Some(c.toolResult.v) else None
  }

  function TruthyParsed(c: ContentBlock): Option<Model>
  {
    if c.parsed.Value? then Some(c.parsed.v) else None
  }

  /** `list.length ? list : undefined` */
  function Nonempty<T>(list: seq<T>): Option<seq<T>>
  {
    if |list| > 0 then Some(list) else None
  }

  /** One block's entry in `text`: `c.text || `<${c.type}>``. It is never
      empty: either the truthy text or the type tag in angle brackets. */
  function Entry(c: ContentBlock): (r: string)
    ensures |r| > 0
    ensures TruthyText(c).Some? ==> r == c.text.v
    ensures TruthyText(c).None? ==>
              |r| >= 2 && r[0] == '<' && r[|r| - 1] == '>' && r[1..|r| - 1] == TypeLabel(Type(c))
  {
    match TruthyText(c)
    case Some(t) => t
    case None => "<" + TypeLabel(Type(c)) + ">"
  }

  /** The `text` getter. */
  function Text(m: Message): (r: string)
    ensures m.content == [] ==> r == ""
    ensures |m.content| == 1 ==> r == Entry(m.content[0])
  {
    Join(MapSeq(m.content, Entry), "\n")
  }

  /** `text` has exactly one line per block, in order, when no entry holds a
      newline of its own: the block's text if truthy, else `<type>`. */
  lemma TextLines(m: Message)
    requires |m.content| > 0
    requires forall i :: 0 <= i < |m.content| ==> '\n' !in Entry(m.content[i])
    ensures |Split(Text(m), '\n')| == |m.content|
    ensures forall i :: 0 <= i < |m.content| ==> Split(Text(m), '\n')[i] == Entry(m.content[i])
  {
    SplitJoin(MapSeq(m.content, Entry), '\n');
  }

  /** An empty string or a null text renders as the type tag; a block with
      only `image_detail` renders as `<null>`. */
  lemma EntryEdgeCases()
    ensures Entry(NoFields.(text := Value(""))) == "<text>"
    ensures Entry(NoFields.(text := Null)) == "<text>"
    ensures Entry(NoFields.(imageDetail := Value("low"))) == "<null>"
    ensures Entry(NoFields.(image := Value(ImageString("u")))) == "<image>"
  {
  }

  /** The `textOnly` getter. */
  function TextOnly(m: Message): (r: Option<string>)
    ensures r.None? <==> forall i :: 0 <= i < |m.content| ==> TruthyText(m.content[i]).None?
  {
    var texts := FilterMap(m.content, TruthyText);
    if |texts| > 0 then Some(Join(texts, "\n")) else None
  }

  /** `textOnly` joins exactly the truthy texts, in order. */
  lemma TextOnlyLines(m: Message)
    requires forall i :: 0 <= i < |m.content| ==>
               m.content[i].text.Value? ==> '\n' !in m.content[i].text.v
    ensures TextOnly(m).Some? ==> Split(TextOnly(m).value, '\n') == FilterMap(m.content, TruthyText)
  {
    var texts := FilterMap(m.content, TruthyText);
    if |texts| > 0 {
      forall k | 0 <= k < |texts| ensures '\n' !in texts[k] {
        assert texts[k] in texts;
      }
      SplitJoin(texts, '\n');
    }
  }

  lemma {:induction false} EntriesAreTexts(blocks: seq<ContentBlock>)
    requires forall i :: 0 <= i < |blocks| ==> TruthyText(blocks[i]).Some?
    ensures MapSeq(blocks, Entry) == FilterMap(blocks, TruthyText)
  {
    if blocks != [] {
      EntriesAreTexts(blocks[1..]);
      assert MapSeq(blocks, Entry) == [Entry(blocks[0])] + MapSeq(blocks[1..], Entry);
    }
  }

  /** When every block has a truthy text, `text` and `textOnly` agree. */
  lemma TextAgreesWithTextOnly(m: Message)
    requires |m.content| > 0
    requires forall i :: 0 <= i < |m.content| ==> TruthyText(m.content[i]).Some?
    ensures TextOnly(m) == Some(Text(m))
  {
    EntriesAreTexts(m.content);
  }

  /** The `images` getter. */
  function Images(m: Message): (r: Option<seq<Image>>)
    ensures r.None? <==> forall i :: 0 <= i < |m.content| ==> TruthyImage(m.content[i]).None?
    ensures r.Some? ==> forall x :: x in r.value <==>
              exists i :: 0 <= i < |m.content| && TruthyImage(m.content[i]) == Some(x)
  {
    Nonempty(FilterMap(m.content, TruthyImage))
  }

  /** The `audios` getter. */
  function Audios(m: Message): (r: Option<seq<Audio>>)
    ensures r.None? <==> forall i :: 0 <= i < |m.content| ==> !IsSet(m.content[i].audio)
    ensures r.Some? ==> forall x :: x in r.value <==>
              exists i :: 0 <= i < |m.content| && m.content[i].audio == Value(x)
  {
    Nonempty(FilterMap(m.content, TruthyAudio))
  }

  /** The `toolCalls` getter. */
  function ToolCalls(m: Message): (r: Option<seq<ToolCall>>)
    ensures r.None? <==> forall i :: 0 <= i < |m.content| ==> !IsSet(m.content[i].toolCall)
    ensures r.Some? ==> forall x :: x in r.value <==>
              exists i :: 0 <= i < |m.content| && m.content[i].toolCall == Value(x)
  {
    Nonempty(FilterMap(m.content, TruthyToolCall))
  }

  /** The `toolResults` getter. */
  function ToolResults(m: Message): (r: Option<seq<ToolResult>>)
    ensures r.None? <==> forall i :: 0 <= i < |m.content| ==> !IsSet(m.content[i].toolResult)
    ensures r.Some? ==> forall x :: x in r.value <==>
              exists i :: 0 <= i < |m.content| && m.content[i].toolResult == Value(x)
  {
    Nonempty(FilterMap(m.content, TruthyToolResult))
  }

  /** The getters keep the blocks' order: on a message whose content is two
      runs of blocks, each list is the first run's followed by the second's. */
  lemma GettersKeepOrder(role: string, a: seq<ContentBlock>, b: seq<ContentBlock>)
    ensures FilterMap(a + b, TruthyImage) == FilterMap(a, TruthyImage) + FilterMap(b, TruthyImage)
    ensures FilterMap(a + b, TruthyAudio) == FilterMap(a, TruthyAudio) + FilterMap(b, TruthyAudio)
    ensures FilterMap(a + b, TruthyToolCall) == FilterMap(a, TruthyToolCall) + FilterMap(b, TruthyToolCall)
    ensures FilterMap(a + b, TruthyToolResult) == FilterMap(a, TruthyToolResult) + FilterMap(b, TruthyToolResult)
    ensures FilterMap(a + b, TruthyText) == FilterMap(a, TruthyText) + FilterMap(b, TruthyText)
    ensures Images(Message(role, a + b)) == Nonempty(FilterMap(a, TruthyImage) + FilterMap(b, TruthyImage))
    ensures Audios(Message(role, a + b)) == Nonempty(FilterMap(a, TruthyAudio) + FilterMap(b, TruthyAudio))
    ensures ToolCalls(Message(role, a + b)) == Nonempty(FilterMap(a, TruthyToolCall) + FilterMap(b, TruthyToolCall))
    ensures ToolResults(Message(role, a + b)) ==
              Nonempty(FilterMap(a, TruthyToolResult) + FilterMap(b, TruthyToolResult))
    ensures FilterMap(a + b, TruthyParsed) == FilterMap(a, TruthyParsed) + FilterMap(b, TruthyParsed)
    ensures var ps := FilterMap(a, TruthyParsed) + FilterMap(b, TruthyParsed);
            Parsed(Message(role, a + b)) == if |ps| == 1 then One(ps[0]) else Many(ps)
    ensures var texts := FilterMap(a, TruthyText) + FilterMap(b, TruthyText);
            TextOnly(Message(role, a + b)) == if |texts| > 0 then Some(Join(texts, "\n")) else None
  {
    FilterMapAppend(a, b, TruthyImage);
    FilterMapAppend(a, b, TruthyAudio);
    FilterMapAppend(a, b, TruthyToolCall);
    FilterMapAppend(a, b, TruthyToolResult);
    FilterMapAppend(a, b, TruthyText);
    FilterMapAppend(a, b, TruthyParsed);
  }

  /** What `parsed` returns: the one model, or the whole list. */
  datatype ParsedView = One(model: Model) | Many(models: seq<Model>)

  /** The `parsed` getter: the single parsed model when exactly one block
      has one, otherwise the (possibly empty) list of them. */
  function Parsed(m: Message): (r: ParsedView)
    ensures r.One? <==> exists i :: 0 <= i < |m.content| && TruthyParsed(m.content[i]).Some?
                                    && forall j :: 0 <= j < |m.content| && j != i ==> TruthyParsed(m.content[j]).None?
    ensures r.One? ==> forall i :: 0 <= i < |m.content| && TruthyParsed(m.content[i]).Some? ==>
                         r.model == TruthyParsed(m.content[i]).value
    ensures r.Many? ==> forall x :: x in r.models <==>
              exists i :: 0 <= i < |m.content| && TruthyParsed(m.content[i]) == Some(x)
    ensures r.Many? ==> r.models == FilterMap(m.content, TruthyParsed)
  {
    var models := FilterMap(m.content, TruthyParsed);
    SingleSelection(m.content, TruthyParsed);
    if |models| == 1 then One(models[0]) else Many(models)
  }
}
