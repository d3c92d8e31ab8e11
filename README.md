# cppboot core, modelled in Dafny

This project models the sequential core of the cppboot C++ library and
proves properties of the model. It covers:

- **The staging buffer** (`NetBuffer`, buffer.dfy). This is a byte vector
  with a read cursor and a write cursor, and `kCheapPrepend` bytes of room
  kept in front. It is a class over an `array<char>`. Growth allocates a
  fresh array. Compaction shifts the readable bytes down in place. Every
  method keeps the cursor invariant
  `CHEAP_PREPEND <= reader <= writer <= data.Length` and states its effect
  on the readable bytes.
- **The frame codec** (`BusCodec`, context.dfy). This is the two-state parser
  `BusContext::Parse`, which takes one frame (a header, then a body) out of
  a buffer per call.
  - The pure function `Step` specifies one call. The method `Parse` is
    proved to do what `Step` says to the codec, the buffer and the message.
  - The sizeof of the header, the expected magic, the copy of header bytes
    and the JSON body decoder are the parameters bundled in `Wire`.
  - `Feed` folds `Step` over successive appended chunks. It is used to show
    that a frame split across any number of appends decodes the same way as
    one contiguous frame.
- **The bus message** (`BusMsg`, msg.dfy): id, method name and a
  string-to-string payload.
- **`string_view`** (`StringViews`, string_view.dfy):
  - the value operations (`at`, `substr`, `compare`, the comparison
    operators, `ClippedSubstr`, `NullSafeStringView`) as functions on
    `seq<char>`;
  - the pointer/length operations (`remove_prefix`, `remove_suffix`, `swap`,
    `copy`) as methods of the class `View`.
- **String predicates** (`StrUtil`, str_util.dfy): `StartsWith`, `EndsWith`
  and `StrContains`.
- **`Status`** (`Statuses`, status.dfy): ok, or an error code with a message.
  It has keep-the-first-error `Update`, and the copy and move operations.
- **The HTTP reply** (`HttpResponse`, response.dfy):
  - status lines and stock bodies;
  - the header list with `header` and `set_header`;
  - serialisation by `to_buffers`;
  - `stock_reply`, `WriteText` and `WriteHtml`.
- **The application environment** (`AppEnv`, env.dfy): the object registry,
  with its reference-count bookkeeping, and the string store.
- **The HTML table writer** (`HtmlTable`, table.dfy): `Table::Dump`, appending
  to a string stream.
- **Path helpers** (`Paths`, paths.dfy): `PathJoin`, `PathSplit`, `Dir` and
  `Basename`. Their implementation is not part of this model. Each is defined
  here so that every assertion of cppboot/base/fs_test.cc holds, and each
  assertion is proved as a lemma. General properties are proved beside them.

Integers are unbounded throughout. The `size_t` arithmetic of the source
never wraps on the paths modelled here: every subtraction is guarded by a
comparison.

## Model

| member | source | states |
|---|---|---|
| NetBuffer.Buffer.constructor | cppboot/net/buffer.h:30-33 | a new buffer keeps the cursor invariant, has no readable bytes, `kCheapPrepend` (8) prependable bytes and `initial_size` writable bytes |
| NetBuffer.Buffer.Default | cppboot/net/buffer.h:30-33 | `Buffer()` with the default argument: no readable bytes, 8 prependable bytes and `kInitialSize` (1024) writable bytes |
| NetBuffer.Buffer.PrependableBytes | cppboot/net/buffer.h:44 | the read cursor; every method's contract is stated with it |
| NetBuffer.Buffer.ReadableBytes | cppboot/net/buffer.h:45 | the distance between the cursors, which `ToString` proves is the number of readable bytes |
| NetBuffer.Buffer.WritableBytes | cppboot/net/buffer.h:46 | the room after the write cursor, which `EnsureWritableBytes` and `MakeSpace` prove is at least `len` afterwards |
| NetBuffer.Buffer.ToString | cppboot/net/buffer.h:50-56 | `Str()`/`ToString()` are the readable bytes, exactly `ReadableBytes()` of them |
| NetBuffer.Buffer.Swap | cppboot/net/buffer.h:38-42 | storage and both cursors are exchanged; each buffer then shows the other's former readable bytes |
| NetBuffer.Buffer.Retrive | cppboot/net/buffer.h:58-63 | below the readable count, the read cursor advances by `len` and exactly the first `len` readable bytes disappear; otherwise both cursors return to `kCheapPrepend` and nothing is readable |
| NetBuffer.Buffer.RetriveAll | cppboot/net/buffer.h:65-68 | both cursors are at `kCheapPrepend`, nothing is readable, and all other room becomes writable |
| NetBuffer.Buffer.Append | cppboot/net/buffer.h:70-78 | the readable bytes become the old readable bytes followed by the appended bytes; growth and compaction lose or duplicate nothing; the cursor invariant holds |
| NetBuffer.Buffer.CopyToWritable | cppboot/net/buffer.h:73 | the bytes are written at the write cursor and the readable bytes are unchanged |
| NetBuffer.Buffer.EnsureWritableBytes | cppboot/net/buffer.h:80-85 | afterwards at least `len` bytes are writable and the readable bytes are unchanged; with enough room already, nothing changes |
| NetBuffer.Buffer.HasWritten | cppboot/net/buffer.h:91-94 | demands `len <= WritableBytes()`; the write cursor advances by `len` and the readable bytes grow by exactly the bytes written there |
| NetBuffer.Buffer.Unwrite | cppboot/net/buffer.h:96-99 | demands `len <= ReadableBytes()`; the readable bytes lose exactly their last `len` bytes |
| NetBuffer.Buffer.MakeSpace | cppboot/net/buffer.h:106-119 | if writable plus prependable is below `len + kCheapPrepend`: the vector is resized to exactly `writer + len`, keeping its bytes and cursors; otherwise, in the same vector, the read cursor was above `kCheapPrepend` and moves to it; either way the readable bytes are kept and `len` bytes become writable |
| BusCodec.BodyStep | cppboot/adv/bus/context.cc:25-42 | the body phase waits, consuming nothing, while fewer than `length` bytes are readable; otherwise it consumes exactly `length` bytes and returns to the header state; `kGood` iff the decoder produced a message |
| BusCodec.Step | cppboot/adv/bus/context.cc:10-42 | one call consumes at most the readable bytes, and returns `kGood` exactly when a message was decoded |
| BusCodec.BusContext.constructor | cppboot/adv/bus/context.cc:8 | a new context waits for a header |
| BusCodec.BusContext.Parse | cppboot/adv/bus/context.cc:10-42 | result, new state and stored header are those `Step` gives; the buffer loses exactly the consumed head bytes; the message is filled exactly when one was decoded and is otherwise untouched |
| BusCodec.ShortHeaderWaits | cppboot/adv/bus/context.cc:11-14 | fewer bytes than a header: `kContinue`, nothing consumed, state and header unchanged |
| BusCodec.BadMagicConsumesHeader | cppboot/adv/bus/context.cc:16-22 | a wrong magic returns `kBad` after the header bytes were consumed and the state set to `kBody` |
| BusCodec.ShortBodyWaits | cppboot/adv/bus/context.cc:25-28 | fewer bytes than the body: `kContinue`, nothing consumed, state and header unchanged |
| BusCodec.BodyAlwaysConsumed | cppboot/adv/bus/context.cc:31-42 | a complete body is consumed and the state returns to `kHeader` whether or not it decodes; `kGood` on success, `kBad` on failure |
| BusCodec.WholeFrameInOneCall | cppboot/adv/bus/context.cc:11-42 | a whole frame is handled in one call: both phases run, exactly header-size plus length bytes are consumed, and the result is `kGood` with the frame's message |
| BusCodec.FeedRestOfFrame | cppboot/adv/bus/context.cc:10-42 | from any partly fed state of a well-formed frame, feeding the rest in any chunking ends in `kGood` with the message and an empty buffer |
| BusCodec.ChunkedFrameDecodes | cppboot/adv/bus/context.cc:10-42 | a well-formed frame cut into any chunks gives the same final result, state and consumption as the frame fed at once |
| BusCodec.CorruptMagicNeverDecodes | cppboot/adv/bus/context.cc:11-22 | a frame with a wrong magic never produces a message in any chunking: `kBad` once the header is complete, `kContinue` before |
| BusMsg.Msg.constructor | bbt/bus/msg.h:19 | a default message has id 0, no method and an empty payload |
| BusMsg.Msg.WithId | bbt/bus/msg.h:20 | `Msg(id)` has that id |
| BusMsg.Msg.Id | bbt/bus/msg.h:22 | `id()`: the stored id, which the constructors and `SetId` state |
| BusMsg.Msg.Method | bbt/bus/msg.h:24 | `method()`: the stored method name, which `SetMethod` states |
| BusMsg.Msg.Data | bbt/bus/msg.h:30 | `data()`: the payload map itself, so keys are unique; `Has`, `Set` and `Get` are stated against it |
| BusMsg.Msg.SetId | bbt/bus/msg.h:23 | only the id changes, to the given value |
| BusMsg.Msg.SetMethod | bbt/bus/msg.h:25 | only the method changes, to the given value |
| BusMsg.Msg.Has | bbt/bus/msg.h:26 | true iff the payload map has the key |
| BusMsg.Msg.Set | bbt/bus/msg.h:27 | the key maps to the value; every other key, the id and the method are unchanged |
| BusMsg.Msg.Get | bbt/bus/msg.h:28 | the payload value of a present key, `""` for an absent one |
| StringViews.Min | cppboot/base/string_view.h:511-513 | the smaller of the two sizes |
| StringViews.Empty | cppboot/base/string_view.h:176 | `empty()` iff the size is 0 |
| StringViews.Size | cppboot/base/string_view.h:161 | `size()`: the number of characters shown, which `Empty` and `At` are stated against |
| StringViews.At | cppboot/base/string_view.h:191-195 | fails with `out_of_range` iff `i >= size()`; otherwise the character at `i` |
| StringViews.Front | cppboot/base/string_view.h:200-202 | demands a non-empty view; the character `at(0)` |
| StringViews.Back | cppboot/base/string_view.h:207-209 | demands a non-empty view; the character `at(size() - 1)` |
| StringViews.MemCmp | cppboot/base/string_view.h:298-299 | the comparison of the first `n` characters is -1, 0 or 1, and 0 iff they are equal |
| StringViews.CompareImpl | cppboot/base/string_view.h:515-520 | the result is -1, 0 or 1; a non-zero prefix result decides the sign; on equal prefixes the shorter view is smaller; 0 iff the prefixes and lengths are equal |
| StringViews.Compare | cppboot/base/string_view.h:294-300 | the result is -1, 0 or 1, and 0 iff the views are equal |
| StringViews.CompareUnfold | cppboot/base/string_view.h:294-300 | the comparison is lexicographic: the first characters decide, then the rest; an empty view is smaller than any non-empty one |
| StringViews.CompareAntisymmetric | cppboot/base/string_view.h:294-300 | swapping the operands negates the result |
| StringViews.ComparePrefix | cppboot/base/string_view.h:294-300 | a proper prefix compares as smaller |
| StringViews.CompareFirstDifference | cppboot/base/string_view.h:294-300 | views equal before position `k` compare as their characters at `k` |
| StringViews.CompareTransitive | cppboot/base/string_view.h:294-300 | the comparison is transitive |
| StringViews.Equal | cppboot/base/string_view.h:529-533 | `x == y` iff equal sizes and equal contents |
| StringViews.NotEqual | cppboot/base/string_view.h:535-537 | `x != y` iff the contents differ |
| StringViews.Less | cppboot/base/string_view.h:539-541 | `x < y` iff `compare` is negative; a strict total order by `LessIsStrictTotalOrder` |
| StringViews.Greater | cppboot/base/string_view.h:543-545 | `x > y` iff `y < x`, iff `compare` is positive by `OperatorsAgreeWithCompare` |
| StringViews.LessEq | cppboot/base/string_view.h:547-549 | `x <= y` iff not `y < x`, iff `compare` is not positive by `OperatorsAgreeWithCompare` |
| StringViews.GreaterEq | cppboot/base/string_view.h:551-553 | `x >= y` iff not `x < y`, iff `compare` is not negative by `OperatorsAgreeWithCompare` |
| StringViews.OperatorsAgreeWithCompare | cppboot/base/string_view.h:539-553 | `<`, `>`, `<=`, `>=` agree with the sign of `compare` |
| StringViews.LessIsStrictTotalOrder | cppboot/base/string_view.h:539-541 | `<` is irreflexive, transitive and total on distinct views |
| StringViews.Substr | cppboot/base/string_view.h:281-286 | fails iff `pos > size()`; otherwise the characters from `pos`, `min(n, size() - pos)` of them |
| StringViews.SubstrAdjacent | cppboot/base/string_view.h:281-286 | two adjacent substrings concatenate to the substring spanning both |
| StringViews.SubstrWhole | cppboot/base/string_view.h:281 | `substr()` with default arguments is the whole view |
| StringViews.AtIsSubstr | cppboot/base/string_view.h:191-195 | `at(i)` succeeds iff `i < size()`, and is then the one-character `substr(i, 1)` |
| StringViews.ClippedSubstr | cppboot/base/string_view.h:569-573 | never fails; equals `substr(pos, n)` when `pos <= size()` and is empty past the end |
| StringViews.CString | cppboot/base/string_view.h:493-509 | the characters of a C string: a NUL-free prefix, stopped by the NUL |
| StringViews.StrlenInternal | cppboot/base/string_view.h:496-498 | the walk stops at the first NUL, and its count is the C string's length |
| StringViews.CStringLength | cppboot/base/string_view.h:493-509 | the position of the first NUL is the length of the C string |
| StringViews.NullSafeStringView | cppboot/base/string_view.h:580-582 | a null pointer gives the empty view; otherwise the C string, which holds no NUL |
| StringViews.NullSafeOfTerminated | cppboot/base/string_view.h:580-582 | a NUL-terminated string reads back exactly up to its terminator |
| StringViews.View.constructor | cppboot/base/string_view.h:91-92 | a view over a whole string shows that string |
| StringViews.View.Null | cppboot/base/string_view.h:69 | the null view shows nothing |
| StringViews.View.RemovePrefix | cppboot/base/string_view.h:228-232 | demands `n <= size()`; the view shows its old characters without the first `n`, and the characters are not touched |
| StringViews.View.RemoveSuffix | cppboot/base/string_view.h:238-241 | demands `n <= size()`; the view shows its first `size() - n` characters |
| StringViews.View.Swap | cppboot/base/string_view.h:244-248 | the two views exchange what they show |
| StringViews.View.Copy | cppboot/base/string_view.h:263-273 | fails iff `pos > size()`, leaving the buffer untouched; otherwise writes and returns `min(size() - pos, n)` characters taken from `pos`, and nothing else of the buffer changes |
| StrUtil.Find | include/bbt/base/str_util.h:32 | the first position at or after `pos` where the needle occurs, or none when it occurs nowhere |
| StrUtil.FindChar | include/bbt/base/str_util.h:36 | the first position of the character, or none when it is absent |
| StrUtil.StrContains | include/bbt/base/str_util.h:30-33 | true iff the needle occurs contiguously somewhere in the haystack |
| StrUtil.StrContainsChar | include/bbt/base/str_util.h:35-37 | true iff the character is in the haystack |
| StrUtil.StartsWith | include/bbt/base/str_util.h:42-47 | true iff the prefix is no longer than the text and equals its first characters (so always for `""`) |
| StrUtil.EndsWith | include/bbt/base/str_util.h:52-58 | true iff the suffix is no longer than the text and equals its last characters (so always for `""`) |
| StrUtil.AffixesAreContained | include/bbt/base/str_util.h:30-58 | a prefix or a suffix of a text is contained in it |
| StrUtil.AffixBounds | include/bbt/base/str_util.h:42-58 | the empty string and the text itself are a prefix and a suffix; nothing longer than the text is |
| Statuses.CodeValue | cppboot/base/status.h:26-50 | codes have values 0..14, and 0 only for `kOk` |
| Statuses.CodeFromValue | cppboot/base/status.h:26-50 | exactly the values 0..14 name a code |
| Statuses.CodeValuesRoundTrip | cppboot/base/status.h:26-50 | value and code convert into each other without loss |
| Statuses.CodeName | cppboot/base/status.h:52-55 | the name each code is shown under in an error status's text; `ToString` proves none of the error texts is `"OK"` |
| Statuses.Status.constructor | cppboot/base/status.h:169 | a default status is ok |
| Statuses.Status.Error | cppboot/base/status.h:66 | an error status holds its code and message |
| Statuses.Status.Copy | cppboot/base/status.h:171-173 | a copy equals its source |
| Statuses.Status.Move | cppboot/base/status.h:184-186 | takes the source's state and leaves the source ok |
| Statuses.Status.Assign | cppboot/base/status.h:174-182 | the result equals the right-hand side; self-assignment changes nothing |
| Statuses.Status.MoveAssign | cppboot/base/status.h:188-191 | exchanges the two states |
| Statuses.Status.Update | cppboot/base/status.h:193-197 | an ok status takes the new one; an error is never overwritten |
| Statuses.Status.UpdateMove | cppboot/base/status.h:199-203 | as `Update`; an ok status swaps with the argument, which is left ok |
| Statuses.Status.Code | cppboot/base/status.h:205-208 | `kOk` iff ok, otherwise the stored code |
| Statuses.Status.IsOk | cppboot/base/status.h:210 | `ok()`: true iff no error state is stored; `Code` proves it iff the code is `kOk` |
| Statuses.Status.AsBool | cppboot/base/status.h:212 | `operator bool` agrees with `ok()` |
| Statuses.Status.ToString | cppboot/base/status.h:214-216 | `"OK"` exactly for an ok status |
| Statuses.OkStatus | cppboot/base/status.h:110 | a new ok status |
| HttpResponse.StatusLineForm | cppboot/net/http/response.cc:10-65 | every status line starts with `HTTP/1.0 ` and ends with CRLF |
| HttpResponse.UnlistedIsInternalError | cppboot/net/http/response.cc:28-65 | an unlisted status gets the 500 status line and the 500 stock body |
| HttpResponse.StockBody | cppboot/net/http/response.cc:170-207 | the stock body is empty exactly for 200 OK |
| HttpResponse.StatusLine | cppboot/net/http/response.cc:28-65 | `status_strings::to_buffer`: by `StatusLineForm`, each line starts with `HTTP/1.0 ` and ends with CRLF; by `UnlistedIsInternalError`, the `default:` branch is the 500 line |
| HttpResponse.StockPage | cppboot/net/http/response.cc:93-168 | the fixed html frame every non-empty stock body puts around its title and heading; the page is at least as long as the title and the heading together |
| HttpResponse.NatToDecimal | cppboot/net/http/response.cc:215 | a decimal rendering: only digits, at least one, and no leading zero except for 0 itself |
| HttpResponse.DecimalRoundTrip | cppboot/net/http/response.cc:215 | the rendering reads back as the number |
| HttpResponse.FirstIndex | cppboot/net/http/response.cc:220-227 | the position of the first header with the name, or none when no header has it |
| HttpResponse.SetHeaderThenHeader | cppboot/net/http/response.cc:220-241 | after `set_header(n, v)`, `header(n) == v` and every other name reads as before; the list grows by one exactly when `n` was absent |
| HttpResponse.Response.constructor | cppboot/net/http/response.cc:212 | the `Response rep;` that `stock_reply` starts from has no headers and no content |
| HttpResponse.Response.GetHeader | cppboot/net/http/response.cc:220-227 | the value of the first header with the name, `""` when there is none |
| HttpResponse.Response.SetHeader | cppboot/net/http/response.cc:230-241 | rewrites only the first header with the name, or appends one header at the end; the value reads back; status and content are unchanged |
| HttpResponse.HeaderBuffersConcat | cppboot/net/http/response.cc:81-84 | the four buffers of a header concatenate to `name ": " value CRLF` |
| HttpResponse.Response.ToBuffers | cppboot/net/http/response.cc:76-89 | `4 * headers + 3` buffers: the status line first, the content last, and all of them concatenated are the status line, each header line in order, CRLF, and the content |
| HttpResponse.Response.StockReply | cppboot/net/http/response.cc:211-218 | status as given, content the stock body, headers exactly `Content-Length` with the body's decimal size and `Content-Type: text/html` |
| HttpResponse.Response.WriteWithType | cppboot/net/http/response.cc:243-255 | sets status and content, then sets `Content-Length` to the decimal size and `Content-Type` to the given type, both of which read back |
| HttpResponse.Response.WriteText | cppboot/net/http/response.cc:243-248 | as above, with `Content-Type: text/plain` |
| HttpResponse.Response.WriteHtml | cppboot/net/http/response.cc:250-255 | as above, with `Content-Type: text/html` |
| AppEnv.Object.AddRefManually | appkit/env.cc:22 | the reference count grows by one |
| AppEnv.Object.Release | appkit/env.cc:43 | the reference count drops by one |
| AppEnv.InsertOutcome | appkit/env.cc:13-25 | insertion succeeds iff the object is non-null, has a non-empty name, and the name is not registered; a null object or a missing name gives `InvalidArgument`; a registered name gives `AlreadyExists` with that name |
| AppEnv.RemoveOutcome | appkit/env.cc:27-45 | removal succeeds iff the object is non-null, named, and registered under its name; a null object or a missing name gives `InvalidArgument`; an unregistered name gives `NotFound` with that name; a different object under the name gives `Unknown` |
| AppEnv.GetOutcome | appkit/env.cc:47-60 | lookup succeeds iff the name is non-empty, the receiver is non-null and the name is registered; a missing name or receiver gives `InvalidArgument`; an unregistered name gives `NotFound` with that name |
| AppEnv.InsertThenRemove | appkit/env.cc:13-45 | after a successful insert, removing the same object succeeds and restores the original map |
| AppEnv.ObjectEnv.Insert | appkit/env.cc:13-25 | the status is the insert outcome; on success the name maps to the object, which gains one reference; on failure neither the map nor the count changes |
| AppEnv.ObjectEnv.Remove | appkit/env.cc:27-45 | the status is the remove outcome; on success the entry is erased and the object loses one reference; on failure nothing changes |
| AppEnv.ObjectEnv.Get | appkit/env.cc:47-60 | the status is the lookup outcome; the map never changes; on success the receiver holds the stored object, which gains one reference; no other count changes |
| AppEnv.ValueOrEmpty | appkit/env.cc:72 | a null value is stored as `""` |
| AppEnv.StoredThenLookup | appkit/env.cc:69-90 | a named key reads back its last stored value (`""` for null); an empty or null key stores nothing and reads `""` |
| AppEnv.ErasedThenLookup | appkit/env.cc:76-90 | after a removal the key reads `""` |
| AppEnv.OtherKeysUntouched | appkit/env.cc:69-90 | storing or removing one key does not change what other keys read |
| AppEnv.StringEnv.Insert | appkit/env.cc:69-74 | the store becomes the stored-map of the old store |
| AppEnv.StringEnv.Remove | appkit/env.cc:76-81 | the store becomes the erased-map of the old store |
| AppEnv.StringEnv.Get | appkit/env.cc:83-90 | the looked-up value: `""` for an empty, null or missing key |
| AppEnv.GlobalEnv.constructor | appkit/env.cc:119 | a new environment has an empty registry and an empty string store |
| AppEnv.GlobalEnv.InsertObject | appkit/env.cc:102 | delegates to the object registry's insert: the same outcome and map update, and the object gains one reference exactly on success |
| AppEnv.GlobalEnv.RemoveObject | appkit/env.cc:103 | delegates to the object registry's remove: the same outcome and map update, and the object loses one reference exactly on success |
| AppEnv.GlobalEnv.GetObject | appkit/env.cc:104-106 | delegates to the object registry's get: the same outcome, the map unchanged, and on success the receiver holds the object with one more reference; no other count changes |
| AppEnv.GlobalEnv.InsertString | appkit/env.cc:108-110 | delegates to the string store's insert |
| AppEnv.GlobalEnv.RemoveString | appkit/env.cc:111 | delegates to the string store's remove |
| AppEnv.GlobalEnv.GetString | appkit/env.cc:112 | delegates to the string store's get |
| HtmlTable.StringStream.Write | bbt/html/elements/table.cc:28 | `<<` appends to the stream's text |
| HtmlTable.Tabs | bbt/html/elements/table.cc:27 | the prefix has exactly `depth` characters |
| HtmlTable.TabsOnly | bbt/html/elements/table.cc:27 | every prefix character is a tab |
| HtmlTable.Shown | bbt/html/elements/table.cc:32 | a row shows its first `min(columns, row size)` cells |
| HtmlTable.DataBlocks | bbt/html/elements/table.cc:38-44 | one `<td>` block per data row, in order, each with the row's shown cells |
| HtmlTable.RowsTextJoin | bbt/html/elements/table.cc:38-44 | the text of consecutive row blocks is the concatenation of their texts |
| HtmlTable.TableFrame | bbt/html/elements/table.cc:28-45 | the output starts with `prefix + "<table>\n"` and ends with `prefix + "</table>\n"` |
| HtmlTable.TableRows | bbt/html/elements/table.cc:30-44 | between the frame: the header row when `head_` is non-empty, then one row per data row in order, each `prefix "\t<tr>\n"`, its cell lines, `prefix "\t</tr>\n"` |
| HtmlTable.HeadRowIffHead | bbt/html/elements/table.cc:30-36 | a `<th>` row is emitted iff `head_` is non-empty, and there is one block per data row besides it |
| HtmlTable.Table.Dump | bbt/html/elements/table.cc:6-46 | appends exactly the rendered table to the stream |
| HtmlTable.Table.constructor | bbt/html/elements/table.cc:30-40 | a table with `columns` columns and no header or data rows; the fields it sets are those `Dump` reads |
| HtmlTable.Table.DumpRow | bbt/html/elements/table.cc:31-35 | appends one row: its opening line, one `prefix "\t\t<td>" cell "</td>\n"` (or `<th>`) line per shown cell, and its closing line |
| Paths.PathJoinOneSlash | cppboot/base/fs_test.cc:17-21 | a two-part join drops only slashes: trailing ones from the left part, leading and trailing ones from the right part; exactly one slash joins them |
| Paths.PathJoin | cppboot/base/fs_test.cc:17-21 | two-part join; by `PathJoinOneSlash` and `JoinCase`, only slashes are dropped at the joint and the right end, and exactly one slash joins the parts |
| Paths.JoinCase | cppboot/base/fs_test.cc:17-21 | a left part plus slashes joined with slash runs around a slash-free-ended core gives `left "/" core`; slash runs inside the core stay |
| Paths.PathJoinAll | cppboot/base/fs_test.cc:23-28 | joining no further parts gives the first part |
| Paths.PathJoinAllStep | cppboot/base/fs_test.cc:23-28 | joining more parts is joining left to right, pairwise |
| Paths.PathJoinPlainCases | cppboot/base/fs_test.cc:17-18 | `PathJoin("/a", "b")` and `PathJoin("/a", "/b")` are `"/a/b"` |
| Paths.PathJoinRunCases | cppboot/base/fs_test.cc:19-20 | `PathJoin("/a///", "///b//")` is `"/a/b"`; `PathJoin("/a///", "///b/c/")` is `"/a/b/c"` |
| Paths.PathJoinInnerRunCase | cppboot/base/fs_test.cc:21 | `PathJoin("/a///", "///b///c/")` is `"/a/b///c"` |
| Paths.PathJoinThreeCase | cppboot/base/fs_test.cc:23 | the three-part join is `"/a/b/c"` |
| Paths.PathJoinFourCase | cppboot/base/fs_test.cc:25-26 | the four-part join is `"/a/b/c/d/e"` |
| Paths.PathJoinFiveCase | cppboot/base/fs_test.cc:27-28 | the five-part join is `"/a/b/c/d/e/fff"` |
| Paths.ComponentsAreWords | cppboot/base/fs_test.cc:34-41 | every component is a non-empty word without slashes |
| Paths.PathSplit | cppboot/base/fs_test.cc:31-42 | by `PathSplitShape`, a `"/"` entry first exactly for an absolute path, then the non-empty slash-free components in order |
| Paths.PathSplitShape | cppboot/base/fs_test.cc:31-42 | the split is empty for `""`; it starts with `"/"` exactly for an absolute path; every other entry is a non-empty slash-free word |
| Paths.PathSplitRootCases | cppboot/base/fs_test.cc:32-34 | `PathSplit("")` is empty; `PathSplit("/")` is `["/"]` |
| Paths.PathSplitOneCases | cppboot/base/fs_test.cc:35-36 | `"/path"` and `"/path/"` split to `["/", "path"]` |
| Paths.PathSplitTwoCase | cppboot/base/fs_test.cc:37 | `"/path/to"` splits to `["/", "path", "to"]` |
| Paths.PathSplitRunsCase | cppboot/base/fs_test.cc:38 | `"///path///to////"` splits to `["/", "path", "to"]` |
| Paths.PathSplitRelativeCases | cppboot/base/fs_test.cc:40-41 | `"path"` and `"path/to"` split with no `"/"` entry |
| Paths.LastSlash | cppboot/base/fs_test.cc:76-94 | the position of the last slash, with no slash after it, or -1 without one |
| Paths.DirAndBasename | cppboot/base/fs_test.cc:76-94 | a path with a slash is `Dir + "/" + Basename`; the base name has no slash; a slash-free path has an empty `Dir` and is its own `Basename` |
| Paths.Dir | cppboot/base/fs_test.cc:79-92 | the text before the last slash, `""` without one; by `DirAndBasename`, a path with a slash is `Dir + "/" + Basename` |
| Paths.Basename | cppboot/base/fs_test.cc:79-92 | the text after the last slash, the whole path without one; by `DirAndBasename`, it never holds a slash |
| Paths.LastSlashBefore | cppboot/base/fs_test.cc:79-86 | for a slash-free `b`, `Dir(a "/" b) == a` and `Basename(a "/" b) == b` |
| Paths.DirAndBasenameTestCases | cppboot/base/fs_test.cc:76-94 | `"/path/to/file"` gives `"/path/to"` and `"file"`; `"/path/to/"` gives `"/path/to"` and `""`; `"file"` gives `""` and `"file"` |

## Left out

- cppboot/adv/bus/invoker.h is not part of this model. It is concurrency: an atomic id counter, a mutex-guarded table of waiting calls, and blocking calls whose bodies are not shown.
- cppboot/net/http/server/connection.cc and cppboot/net/tcp/server.cc are not part of this model. They are asynchronous socket I/O.
- cppboot/net/http/server/request_parser.h is not part of this model. Its character state machine and URL decoding are only declared.
- cppboot/base/fmt.h is not part of this model. It adapts an external formatting library.
- `Response::WriteJson` is left out. Its content is produced by an external JSON serialiser.
- `asio::buffer` is left out: `to_buffers` yields a sequence of strings.
- `std::to_string` is modelled as `NatToDecimal`.
- BusCodec.Wire: the header layout, `kMsgMagic`, the `memcpy` of the header and `JsonPacker::Unpack` are not shown. The model takes them as parameters.
- BusCodec.BusContext.Parse: a failed `Unpack` is modelled as leaving the message untouched. What the real decoder writes before failing is not known.
- BusCodec.BusContext.Parse: a successful `Unpack` is modelled as overwriting the id, the method and the whole payload of the message with what the body decodes to. The real decoder writes into the caller's `Msg`. Whether payload keys from an earlier frame survive in a reused `Msg` is not known, so the model does not capture it.
- Statuses.CodeName: `StatusCodeToString` is only declared. The names used here are a modelling choice; only the property that no error text is `"OK"` depends on them.
- HtmlTable.Table.constructor: the table's declaration is not part of this model. The constructor taking the column count and starting with no rows is a modelling choice.
- The `if (state_ == kBody)` test at cppboot/adv/bus/context.cc:25 always holds once the header phase is past. The model goes straight to the body phase.
- BusMsg.Msg.Has, Set and Get are only declared in bbt/bus/msg.h. They are modelled as `std::map` lookups, with `Get` giving `""` for a missing key. That default is a modelling choice.
- The `uint32_t` message id is a subtype of 0..2^32-1. No arithmetic is done on it.
- `size_t` arithmetic does not wrap anywhere in the buffer or the string view on the paths modelled. Growth of `std::vector` beyond memory is not modelled.
- NetBuffer.Buffer.Append takes the bytes as a sequence. The raw-pointer overload and the `string_view` overload are the same operation here.
- `Peek`, `BeginWrite` and `begin` are pointer accessors. They become indices into the array.
- StringViews: these are left out:
  - iterators;
  - `data()` pointer arithmetic;
  - the declared-only `find`/`rfind`/`find_*_of` family, except the forward `find` used by `StrContains`, which is specified directly;
  - the compiler-specific branches of `StrlenInternal`, of which only the pointer-walking loop is modelled;
  - `max_size` and the hardening `len <= kMaxSize` check.
- StringViews.MemCmp compares characters by their code points. That matches `memcmp`'s unsigned-byte order for single-byte characters.
- Statuses: the byte encoding of `state_` is abstracted to an optional code-and-message record. `CopyState`, the printf-style constructor, `IgnoreError` and `ErrnoToStatus` are left out.
- Statuses.Status.ToString: the text of an error status comes from `ToStringSlow`, whose body is not shown. The model renders it as the code name, `": "`, then the message. Only "`OK` exactly for an ok status" is claimed.
- Statuses.Status.Error: `Status(code, msg)` is modelled for error codes only. The stored state of an ok code built this way is not shown.
- AppEnv: the mutexes are left out and the registries are modelled sequentially. `ObjectEnv::Get` takes no lock in the source, and the race that allows is not modelled.
- AppEnv.Object: `Object` (`service_name`, `AddRefManually`, `Release`) is not part of this model. Its reference count is a plain counter. Deletion at zero is not modelled.
- The C strings `const char*` passed to the environment are `Option<string>`, with `None` for null. An `Object**` receiver is a `Slot?`.
- `GlobalEnv::Release` (deletion) is left out.
- HtmlTable.Table.Dump takes `depth` as a `nat`. A negative `int` depth, which would make the `std::string` constructor throw, is not modelled.
- The `head_`, `data_` and `columns_` setters live in a header that is not part of this model. The class holds them as plain fields.
- Paths: the implementation of `PathJoin`, `PathSplit`, `Dir` and `Basename` is not part of this model. The functions here are defined to satisfy every assertion of cppboot/base/fs_test.cc. Two things are modelling choices that the tests do not fix:
  - the result for inputs the tests do not cover, such as an empty left part of a join;
  - `Dir` of a root-level path.
- The filesystem-touching tests of cppboot/base/fs_test.cc are left out: real paths, links, reading and writing files, directories, copy and rename.
- HttpResponse.StockBody uses the heading text "204 Content" for `no_content`, as in the source.
