# ell core, modelled in Dafny

This project models three parts of the ell prompt-engineering library and
proves properties of them.

- **The studio's database watcher** (`db_watcher` in the studio server):
  - it polls the SQLite file every 0.1 s;
  - it compares modification time (with a one-second tolerance), size and inode against the snapshot it holds;
  - it tells connected clients "database_updated" when the file appeared, changed or disappeared;
  - it backs off one extra second after a missing file or any other error.

  The loop is a class, `Watcher.DbWatcher`, with the source's `last_stat` as a field. `Tick` is one iteration and `Run` is the first n iterations. Both are proved against a pure decision function, `Decide`, and its replay over a sequence of poll outcomes, `Replay`. A lemma shows that this function implements the unknown / present / absent detector the watcher is meant to be.
- **Chat messages of the TypeScript client** (`ContentBlock`, `coerceContentList`, `Message` and the `system`/`user`/`assistant` helpers):
  - validation admits at most one non-null field, or exactly `image` with `image_detail`;
  - the `type` getter tests fields in priority order;
  - coercion of strings, tool calls, tool results and parsed models into blocks;
  - the getters `text`, `textOnly`, `images`, `audios`, `toolCalls`, `toolResults` and `parsed`.

  JavaScript's `undefined` and `null` are kept apart, because validation ignores both and `type` ignores only `undefined`.
- **The HTTP store client** (`EllAPIClient`). Request construction and reply decoding are modelled for `get_lmp`, `write_lmp`, `write_invocation`, `store_blob`, `retrieve_blob` and `get_lmp_versions`. A reply is the outcome of the round trip: a transport failure, or a response carrying its status, its raw bytes and the JSON its body parses to. Each method becomes a function from the reply to the value it returns or the exception it raises. This includes the translation of a 422 into `ValueError("Invalid input: …")`.

Files:
- `wrappers.dfy`: `Option` and `Result`.
- `seqs.dfy`: `join`, `split` and `filter(…).map(…)`, with the lemmas relating them.
- `watcher.dfy`, `messages.dfy` and `http_client.dfy`: the three parts above.

Facts about the code that the model keeps:
- The watcher sends the single token "database_updated" for appearance, change and disappearance alike.
- `retrieve_blob` reports a missing blob as `Http(404)`. There is no separate not-found error.
- `write_lmp` re-raises every non-422 error status as `Http(status)`. A transport failure is a separate kind, `Transport`.
- `get_lmp` returns `None` only for a JSON `null` body. A 404 is `Http(404)`.

## Model

| member | source | states |
|---|---|---|
| Watcher.Changed | src/ell/studio/__main__.py:64-71 | two stats differ iff the mtimes are more than 1 s apart either way (strictly), or the size or the inode differs; a stat never differs from itself |
| Watcher.Decide | src/ell/studio/__main__.py:57-88 | the loop body's decision: it backs off exactly on the two exception branches; a notification always comes with a change of the held snapshot; a snapshot is held afterwards iff the stat succeeded, or a generic error kept one |
| Watcher.Replay | src/ell/studio/__main__.py:55-88 | after n ticks: at most n notifications and at least n sleeps |
| Watcher.FirstSightingNotifies | src/ell/studio/__main__.py:58-78 | with no snapshot held, a successful stat notifies, holds the new stat and does not back off |
| Watcher.JitterIsSilent | src/ell/studio/__main__.py:63-78 | same size and inode and an mtime at most 1 s away (1 s exactly included) is silent; the new stat is held |
| Watcher.ChangeNotifies | src/ell/studio/__main__.py:63-78 | with a snapshot held, a stat notifies iff the mtime moved by more than 1 s either way, or the size or inode differs; the new stat is held either way |
| Watcher.DeletionNotifiesOnce | src/ell/studio/__main__.py:79-85 | FileNotFoundError notifies iff a snapshot was held, drops it, and backs off |
| Watcher.OtherErrorIsInert | src/ell/studio/__main__.py:86-88 | any other exception is silent, keeps the snapshot, and backs off |
| Watcher.TickShape | src/ell/studio/__main__.py:55-88 | every tick sleeps 100 ms first, plus 1000 ms exactly on the two exception branches; at most one notification, always "database_updated" |
| Watcher.DecideRefinesPhases | src/ell/studio/__main__.py:55-88 | from each phase of the unknown / present / absent detector, the loop body emits exactly when the detector emits and holds the snapshot of the phase the detector moves to |
| Watcher.ReplayBounds | src/ell/studio/__main__.py:55-88 | over any run: at most one notification per tick, each one "database_updated"; the number of sleeps is ticks plus exceptions |
| Watcher.ReplayHoldsLastKnown | src/ell/studio/__main__.py:57-88 | after any run the held snapshot is the latest successful stat, or nothing when the latest non-generic outcome was a missing file; generic errors leave it alone |
| Watcher.ReplayAppend | src/ell/studio/__main__.py:55-88 | running two poll sequences back to back equals running the second from the snapshot the first left: the snapshot is the watcher's whole state |
| Watcher.DriftNeverNotifies | src/ell/studio/__main__.py:64-78 | a stat whose mtime creeps by at most 1 s per tick, with unchanged size and inode, never notifies however far it drifts in total |
| Watcher.TenSecondDriftIsSilent | src/ell/studio/__main__.py:64-71 | ten one-second steps (ten seconds in total) send no notification |
| Watcher.AbsenceIsSilent | src/ell/studio/__main__.py:79-85 | repeated missing-file ticks send exactly one notification if a snapshot was held and none otherwise, and hold nothing |
| Watcher.ErrorsAreInert | src/ell/studio/__main__.py:86-88 | repeated generic errors keep the snapshot and send nothing |
| Watcher.AppearUnchangedGrow | src/ell/studio/__main__.py:60-78 | appear, unchanged stat, two-byte growth: exactly two notifications |
| Watcher.DisappearAndReappear | src/ell/studio/__main__.py:60-85 | deletion after being seen, any number of absent ticks, then reappearance: exactly two notifications, and the reappeared stat is held |
| Watcher.DbWatcher.constructor | src/ell/studio/__main__.py:53 | the watcher starts with no snapshot, no notifications, no sleeps |
| Watcher.DbWatcher.Tick | src/ell/studio/__main__.py:56-88 | one loop iteration: the new snapshot, and the notifications and sleeps appended, are those of `Decide` on the old snapshot |
| Watcher.DbWatcher.Run | src/ell/studio/__main__.py:55-88 | n loop iterations leave the state `Replay` gives for those polls from the old snapshot |
| Messages.NonNullFieldsExact | typescript/src/types/message.ts:73-75 | the fields listed as non-null are exactly the fields whose value is neither null nor undefined |
| Messages.WellFormed | typescript/src/types/message.ts:77-80 | accepted iff at most one field is non-null, or the non-null fields are exactly `image` and `image_detail` |
| Messages.ErrorText | typescript/src/types/message.ts:81-83 | the thrown text is the fixed sentence followed by the offending field names joined with ", ", or "Invalid content type: " followed by the offending `typeof` (line 104) |
| Messages.NewBlock | typescript/src/types/message.ts:66-85 | construction succeeds iff the data is well formed and then copies it; otherwise it throws and lists the two or more offending fields in declaration order |
| Messages.WellFormedIffPairwise | typescript/src/types/message.ts:71-84 | a block is accepted iff no two distinct fields are both non-null, except `image` with `image_detail` |
| Messages.Type | typescript/src/types/message.ts:87-95 | `type` is the first defined field in the order text, image, audio, tool_call, parsed, tool_result; null iff none is defined |
| Messages.TypeEdgeCases | typescript/src/types/message.ts:87-95 | an `image_detail`-only block has type null; a null `text` still gives type "text", although validation ignores it |
| Messages.Coerce | typescript/src/types/message.ts:97-105 | a block is returned as it is; a string, tool call, tool result or model becomes the valid block whose one field (`text`, `tool_call`, `tool_result`, `parsed`) holds exactly that value; anything else throws "Invalid content type" |
| Messages.CoercedBlockTypes | typescript/src/types/message.ts:99-102 | each coerced kind (string, tool call, tool result, parsed model) yields a block whose type names that kind |
| Messages.CoerceEach | typescript/src/types/message.ts:122 | mapping succeeds iff every element coerces, keeping length and order; otherwise it throws the first failing element's error |
| Messages.CoerceContentList | typescript/src/types/message.ts:110-123 | falsy content gives the one block built from the kwargs, or throws the kwargs' too-many-fields error; a non-empty string gives one text block; an array gives its elements coerced in order, or throws the first failing element's error |
| Messages.NewMessage | typescript/src/types/message.ts:128-136 | a message is built iff its content list is, with the given role and that content |
| Messages.NewMessageBlocks | typescript/src/types/message.ts:110-136 | every block of a built message is well formed when the blocks passed in are; arrays keep their length and anything else gives one block |
| Messages.System | typescript/src/types/message.ts:189-191 | the message with role "system" and the coerced content |
| Messages.User | typescript/src/types/message.ts:193-195 | the message with role "user" and the coerced content |
| Messages.Assistant | typescript/src/types/message.ts:197-199 | the message with role "assistant" and the coerced content |
| Messages.HelperWithoutContent | typescript/src/types/message.ts:114-116 | missing or empty content still yields one empty block |
| Messages.Entry | typescript/src/types/message.ts:139 | a block's line is never empty: its truthy text, or else its type tag (`null` when none) in angle brackets |
| Messages.Text | typescript/src/types/message.ts:138-140 | no blocks give ""; one block gives that block's entry |
| Messages.TextLines | typescript/src/types/message.ts:138-140 | splitting `text` on newlines gives back one entry per block, in order: its truthy text or `<type>` |
| Messages.EntryEdgeCases | typescript/src/types/message.ts:139 | empty or null text renders as `<text>`, an image block as `<image>`, an `image_detail`-only block as `<null>` |
| Messages.TextOnly | typescript/src/types/message.ts:152-155 | undefined iff no block has a truthy text |
| Messages.TextOnlyLines | typescript/src/types/message.ts:152-155 | splitting `textOnly` on newlines gives exactly the truthy texts, in order |
| Messages.TextAgreesWithTextOnly | typescript/src/types/message.ts:138-155 | when every block has a truthy text, `text` and `textOnly` agree |
| Messages.Images | typescript/src/types/message.ts:142-145 | undefined iff no block has a truthy image; otherwise exactly the truthy images |
| Messages.Audios | typescript/src/types/message.ts:147-150 | undefined iff no block has audio; otherwise exactly the blocks' audio values |
| Messages.ToolCalls | typescript/src/types/message.ts:157-160 | undefined iff no block has a tool call; otherwise exactly those tool calls |
| Messages.ToolResults | typescript/src/types/message.ts:162-165 | undefined iff no block has a tool result; otherwise exactly those results |
| Messages.GettersKeepOrder | typescript/src/types/message.ts:142-173 | each getter (`images`, `audios`, `toolCalls`, `toolResults`, `textOnly`, `parsed`) on concatenated content gives the first part's items followed by the second's, in block order and with repeats kept |
| Messages.Parsed | typescript/src/types/message.ts:167-173 | the single model iff exactly one block holds one; otherwise the list of all of them, in block order with repeats kept |
| HttpClient.Lookup | src/ell/api/client/http.py:33 | `dict.get`: absent iff no entry has the key; otherwise the value of an entry with that key |
| HttpClient.RaiseForStatus | src/ell/api/client/http.py:17-18 | passes the response through iff it is 2xx; a transport failure propagates; any other status raises `Http(status)` |
| HttpClient.DistinctIdsDistinctPaths | src/ell/api/client/http.py:17-55 | in the model's request paths, distinct LMP ids and distinct blob ids give distinct paths |
| HttpClient.GetLmpRequest | src/ell/api/client/http.py:17 | `GET /lmp/{id}` with no query and no body; the id is the rest of the path after `/lmp/` |
| HttpClient.WriteLmpRequest | src/ell/api/client/http.py:26-29 | `POST /lmp` with a JSON object of two distinct keys: "lmp" is the dump and "uses" lists the dependency ids as strings, in order |
| HttpClient.WriteInvocationRequest | src/ell/api/client/http.py:39-42 | `POST /invocation` with the dump as its JSON body |
| HttpClient.StoreBlobRequest | src/ell/api/client/http.py:47-50 | `POST /blob` carrying the blob and the metadata unchanged |
| HttpClient.RetrieveBlobRequest | src/ell/api/client/http.py:55 | `GET /blob/{id}` with no query and no body; the id is the rest of the path after `/blob/` |
| HttpClient.GetLmpVersionsRequest | src/ell/api/client/http.py:69 | `GET /lmp/versions` with the single query parameter `fqn` |
| HttpClient.LmpFromJson | src/ell/api/client/http.py:22 | `LMP(**data)` succeeds iff the data is a dict, and the record holds exactly that dict; anything else raises |
| HttpClient.GetLmp | src/ell/api/client/http.py:16-22 | error statuses and transport failures propagate; `None` iff a 2xx body is JSON null; a record returned is the served object; a malformed 2xx body raises a decoding error (not JSON, or not a dict), never an HTTP or transport error |
| HttpClient.GetLmpReturnsServedRecord | src/ell/api/client/http.py:19-22 | a served record comes back unchanged |
| HttpClient.PyStr | src/ell/api/client/http.py:35 | `str()` of a decoded value: a string is itself, `None`/`True`/`False` are spelled out, an int is its decimal text (`IntText`), a list is bracketed and a dict braced; anything but a string is its `repr` |
| HttpClient.PyRepr | src/ell/api/client/http.py:35 | `repr()` of a decoded value: a string is single-quoted around its text, an int is its decimal text, a list is bracketed and a dict braced |
| HttpClient.DecimalValue | src/ell/api/client/http.py:35 | the decimal text of a natural number, read back digit by digit, is that number |
| HttpClient.IntTextValue | src/ell/api/client/http.py:35 | `str()` of an int denotes it: a '-' exactly for negatives, then the digits of its magnitude |
| HttpClient.ReprShortList | src/ell/api/client/http.py:35 | `[]` for an empty list, and `[` item `]` for a one-item list |
| HttpClient.ReprShortDict | src/ell/api/client/http.py:35 | `{}` for an empty dict, and `{'key': value}` for a one-entry dict |
| HttpClient.ReprListCons | src/ell/api/client/http.py:35 | a longer list is its first item's `repr`, ", " and the rest of the list; so items render one by one, in order |
| HttpClient.ReprDictCons | src/ell/api/client/http.py:35 | a longer dict is its first `'key': value`, ", " and the rest of the dict, in entry order |
| HttpClient.ValidationMessage | src/ell/api/client/http.py:35 | the message is "Invalid input: " followed by `str(detail)`; a string detail appears verbatim |
| HttpClient.WriteLmp | src/ell/api/client/http.py:24-36 | success iff 2xx; a 422 becomes "Invalid input: " plus the detail (or the default text), never `Http(422)`; only a 422 validates; everything else propagates |
| HttpClient.RejectionIsDistinguishable | src/ell/api/client/http.py:31-36 | on a body with distinct keys, a 422 with string detail d gives the message "Invalid input: d" with d verbatim; a 500 gives the distinct `Http(500)` |
| HttpClient.NonStringDetail | src/ell/api/client/http.py:33-35 | non-string details are rendered with Python's `str` (`None`, `[-12, 'x']`) |
| HttpClient.WriteInvocation | src/ell/api/client/http.py:38-44 | success iff 2xx; failures propagate |
| HttpClient.StoreBlob | src/ell/api/client/http.py:46-52 | succeeds iff 2xx and the body is an object with a "blob_id" key, and returns that key's value; a malformed 2xx body raises a decoding error (not JSON, not a dict, or no "blob_id" key), never an HTTP or transport error |
| HttpClient.RetrieveBlob | src/ell/api/client/http.py:54-57 | success iff 2xx, and then returns the body bytes unchanged |
| HttpClient.LmpsFromArray | src/ell/api/client/http.py:72 | succeeds iff every element is an object, and returns one record per element, in order |
| HttpClient.GetLmpVersions | src/ell/api/client/http.py:68-72 | failures propagate; a 2xx succeeds iff the body is a list of objects, an empty dict or an empty string; a list gives one record per element in order, the other two give []; every other 2xx body raises (NotJson for non-JSON, WrongShape otherwise) |
| HttpClient.VersionsReturnServedRecords | src/ell/api/client/http.py:68-72 | the list of records served is returned exactly |
| HttpClient.EllApiClient.constructor | src/ell/api/client/http.py:12-14 | keeps the base URL and opens the connection |
| HttpClient.EllApiClient.Close | src/ell/api/client/http.py:59-60 | closes the connection |

## Left out

- The studio's `main()`: argument parsing, the FastAPI app, static files, uvicorn and the event loop. Only `db_watcher` is modelled.
- The watcher's infinite loop: it is modelled as its first n iterations (`Run`). Cancellation and the asyncio scheduling are not modelled.
- `os.stat` and the clock: each tick receives the stat's outcome as a `Poll`.
- Watcher.DbWatcher.Tick: `print` and `time.ctime` are treated as never raising. If they raised, for example `time.ctime` on an mtime outside `localtime`'s range at line 72, or a `print` to a broken stdout at line 61 or 72, the handler at line 86 would catch it. The notification and line 78 would be skipped and the tick would back off 1 s, whereas the model notifies and holds the new stat.
- Modification times: modelled as exact reals. Float rounding of `st_mtime` is not modelled.
- Watcher.DbWatcher.Tick: `notify_clients` is treated as never raising. If it raised at line 62 or 76, the handlers at lines 79 and 86 would catch the exception and skip line 78, so the snapshot would stay as it was (a `FileNotFoundError` from it would even take the deletion branch). If it raised at line 82, inside the `FileNotFoundError` handler, the exception would leave the loop and end the watcher task.
- `ToolCall.call`, `callAndCollectAsMessageBlock`, `callAndCollectAsMessage` and `Message.callToolsAndCollectAsMessage`: they call user tool functions, which are foreign code.
- Audio samples, images, tool functions and parameters, and parsed models are opaque values. Object identity is value equality.
- Messages.Coerce: `type Image = any` declares only a type, so `instanceof Image` at line 103 tests whatever global `Image` exists at run time. In a browser an `HTMLImageElement` passes and becomes an image block. In Node the test throws `ReferenceError` for every value that reaches it, so line 104 is never reached. The model simplifies this: every value that reaches line 103 gets line 104's "Invalid content type" error, so an image enters a block only through the constructor's data.
- Messages.NewBlock: extra keys in the constructor's data are not modelled. `Object.entries` order is taken to be the field declaration order.
- The `ResponseFormat` typing of `parsed`: modelled as "one model or a list".
- `logger.py`, `provider.ts` and `index.ts`: they are context code, not part of this model.
- httpx itself: connection pooling, URL joining with the base URL, and escaping of ids in paths (an id holding `?` or `#` would not stay in the path).
- `store_blob`'s body encoding: a `data=` dict without `files=` is sent URL-encoded, with `str()` for the bytes and for a dict, and the empty string for `None`. So the blob goes out as its Python repr `b'…'`, not byte for byte, a metadata dict as its repr, and the default `metadata=None` as an empty value. The request in the model keeps the blob and metadata as values and leaves the encoding out.
- JSON parsing: a response carries the parsed value. Floats are not modelled. A JSON object with a repeated key decodes in Python to a dict holding the last value, while `Lookup` takes the first; the lemma about string details therefore assumes distinct keys (`DistinctKeys`).
- pydantic: `model_dump` is an input JSON value, and `LMP(**data)` is modelled only as "data must be a dict"; field validation is left out.
- `logging.error` in `write_lmp`: logging output only.
- HttpClient.WriteLmp: a 422 whose body is not JSON raises `JSONDecodeError`. That is modelled as `BadBody(NotJson)`, although Python's `JSONDecodeError` is a subclass of `ValueError`.
- HttpClient.PyRepr: quoting and escaping of strings are simplified. Strings and dict keys are always single-quoted and never escaped. The rendering of list items and dict entries is stated by `ReprShortList`, `ReprShortDict`, `ReprListCons` and `ReprDictCons`, not by `PyRepr`'s own contract.
- HttpClient.StoreBlob: returns the JSON value under "blob_id" without checking that it is a string. The source's `-> str` annotation is not enforced at run time.
- `__aenter__`/`__aexit__`: not modelled. `close` is not idempotence-checked.
- HttpClient.EllApiClient: no request reads the `connection` field, so a request after `close`, which httpx refuses with `RuntimeError`, is not modelled.
