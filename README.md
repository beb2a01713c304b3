# brcmfmac_iovar core, modelled in Dafny

`brcmfmac_iovar` reads and writes 32-bit firmware iovars of a Broadcom/Cypress
FullMAC wireless chip. It talks to the mainline `brcmfmac` driver through an
nl80211 vendor command (`NL80211_CMD_VENDOR`, vendor ID `0x001018`,
subcommand `BRCMF_VNDR_CMDS_DCMD = 1`). This project models the protocol
core of `brcmfmac_iovar.c`:

- `Bytes` (bytes.dfy): `byte`, `u32` and `i32`, little-endian 32-bit
  encoding, two's-complement `int32_t`, C strings, and `memcpy` as `CopyInto`.
- `VendorCodec` (vendor_codec.dfy): the 20-byte `brcmf_vndr_dcmd_hdr` and its
  encoding. The vendor-data blob is the header followed by the payload. It also
  models the receiving handler's positional decoding, the calloc'd buffer
  filled by `memcpy`, and the outer vendor request.
- `IovarPayload` (iovar_payload.dfy): GET and SET payload framing, the
  `ret_len` sizing rules, and how the firmware reads a payload back (the name
  up to the first NUL, then the value).
- `Response` (response.dfy): the `iovar_response` record as a class. Its
  methods are the four callbacks (`error_handler`, `finish_handler`,
  `ack_handler`, `response_handler`), one `nl_recvmsgs` batch, and the
  `while (resp->error == -EINPROGRESS)` loop. Each method is proved against a
  pure transition function, and the lemmas are about those functions.
- `Session` (session.dfy): `send_vendor_cmd`. The libnl steps become given
  outcomes (`Transport`), and the kernel's reply messages become a finite
  sequence of batches.
- `IovarInt` (iovar_int.dfy): `get_iovar_int` and `set_iovar_int`, with
  scenario lemmas.

The GET reply size follows the code exactly. The code tests `strlen + 1 > 256`
(brcmfmac_iovar.c:351-355), so names up to 255 bytes get `ret_len = 256`, and
`GetRetLenBounds` states that rule.

Errno values are Linux's: `ENOMEM = 12`, `ENODATA = 61`, `EINPROGRESS = 115`.

## Model

| member | source | states |
|---|---|---|
| `Bytes.FromLe32Le32` | brcmfmac_iovar.c:400-402 | reading back the 4 little-endian bytes of a uint32_t gives the value |
| `Bytes.Le32FromLe32` | brcmfmac_iovar.c:368-370 | any 4 bytes are the little-endian layout of the value read from them, so the encoding is a bijection |
| `Bytes.I32BitsRoundTrip` | brcmfmac_iovar.c:108 | the int32_t `len` field's bit pattern and its signed value convert into each other exactly |
| `Bytes.SizeToI32` | brcmfmac_iovar.c:355 | a size_t stored in an int32_t keeps its value modulo 2^32, and is unchanged below 2^31 |
| `Bytes.CopyInto` | brcmfmac_iovar.c:283-284 | memcpy: the target range holds the source bytes; every other byte is unchanged |
| `VendorCodec.MakeHdr` | brcmfmac_iovar.c:276-281 | header fields: cmd, len = ret_len, offset = 20, set = 1 exactly when is_set is non-zero (else 0), magic = 0 |
| `VendorCodec.EncodeHdr` | brcmfmac_iovar.c:106-112 | the header occupies exactly 20 bytes (five 4-byte fields, no padding) |
| `VendorCodec.DecodeEncodeHdr` | brcmfmac_iovar.c:106-112 | decoding the encoded header recovers every field |
| `VendorCodec.EncodeDecodeHdr` | brcmfmac_iovar.c:106-112 | every 20 bytes are the encoding of the header decoded from them |
| `VendorCodec.DecodeBlob` | brcmfmac_iovar.c:101-104 | the receiver accepts a blob only when it holds a whole header and the offset is within the blob |
| `VendorCodec.VendorBlobLayout` | brcmfmac_iovar.c:263-284 | the blob is 20 + payload_len bytes, bytes 20.. are the payload unchanged, and the receiver decodes it to the header built and that payload |
| `VendorCodec.DecodeBlobSound` | brcmfmac_iovar.c:263-284 | any blob the receiver accepts with offset 20 is the header's encoding followed by the payload |
| `VendorCodec.BuildVendorData` | brcmfmac_iovar.c:269-284 | the calloc'd vendor_data buffer ends up holding exactly the blob |
| `VendorCodec.VendorRequest` | brcmfmac_iovar.c:298-301 | the request carries the interface index, vendor ID 0x001018, subcommand 1 and the blob as vendor data |
| `IovarPayload.FindNul` | brcmfmac_iovar.c:351 | strlen: the index found holds a NUL and no NUL precedes it; None only when there is no NUL |
| `IovarPayload.GetRetLenBounds` | brcmfmac_iovar.c:351-355 | GET ret_len is 256 when name_len <= 256, otherwise name_len + 4, so it is always >= name_len and >= 4 |
| `IovarPayload.SetPayloadLayout` | brcmfmac_iovar.c:391-406 | SET payload is strlen + 5 bytes: the name, one NUL, then the value little-endian; ret_len equals that length |
| `IovarPayload.ParseGetPayloadRoundTrip` | brcmfmac_iovar.c:358-359 | the firmware reads the GET payload back as the name |
| `IovarPayload.ParseSetPayloadRoundTrip` | brcmfmac_iovar.c:384-402 | splitting the SET payload at its first NUL recovers the name and the value |
| `IovarPayload.ParseSetPayloadComplete` | brcmfmac_iovar.c:384-402 | a strlen + 5 byte payload that the firmware reads as (name, value) is the SET framing of that pair |
| `IovarPayload.PackSetPayload` | brcmfmac_iovar.c:396-402 | the calloc'd SET buffer holds exactly the framed payload |
| `Response.FirstDataIsFirstMatch` | brcmfmac_iovar.c:187-198 | the scan finds a data attribute exactly when one of type 2 exists, and returns the payload of the first one |
| `Response.Wait` | brcmfmac_iovar.c:323-326 | the loop completes exactly when error is no longer -EINPROGRESS, and at once if it already is |
| `Response.StepTerminal` | brcmfmac_iovar.c:126-155 | terminal callbacks (error with a code other than -EINPROGRESS, ack, finish, missing vendor data, failed copy) leave error off -EINPROGRESS; every other callback, except an error callback carrying -EINPROGRESS, keeps error |
| `Response.ValidMsgKeepsError` | brcmfmac_iovar.c:187-198 | a successful data callback never changes error; it stores the first type-2 payload and its length, or leaves the record unchanged when there is none |
| `Response.RecvBatchConsistent` | brcmfmac_iovar.c:189-195 | after a batch, a non-NULL data buffer still holds exactly len bytes |
| `Response.WaitConsistent` | brcmfmac_iovar.c:323-326 | the wait loop keeps data and len consistent |
| `Response.RecvBatchSticky` | brcmfmac_iovar.c:138-144 | once error has left -EINPROGRESS, later callbacks in the same batch do not bring it back, provided no error callback in the batch carries -EINPROGRESS |
| `Response.RecvBatchEnds` | brcmfmac_iovar.c:323-326 | from -EINPROGRESS, and provided no error callback in the batch carries -EINPROGRESS, a batch ends the wait if and only if it contains a terminal event; data callbacks alone never end it |
| `Response.InProgressErrorKeepsWaiting` | brcmfmac_iovar.c:126-144 | a finish callback followed in the same batch by an error callback carrying -EINPROGRESS leaves error at -EINPROGRESS, and the loop keeps waiting |
| `Response.WaitCompletes` | brcmfmac_iovar.c:323-326 | if some reply batch holds a terminal event and no error callback in that batch carries -EINPROGRESS, the wait loop completes |
| `Response.IovarResponse.constructor` | brcmfmac_iovar.c:236-238 | the record starts with data NULL, len 0 and error -EINPROGRESS |
| `Response.IovarResponse.ErrorHandler` | brcmfmac_iovar.c:126-133 | stores the driver's error code and returns NL_STOP |
| `Response.IovarResponse.FinishHandler` | brcmfmac_iovar.c:138-144 | sets error to 0 and returns NL_SKIP |
| `Response.IovarResponse.AckHandler` | brcmfmac_iovar.c:149-155 | sets error to 0 and returns NL_STOP |
| `Response.IovarResponse.ResponseHandler` | brcmfmac_iovar.c:165-201 | the attribute loop with break: vendor data missing gives -ENODATA; otherwise the first type-2 attribute's bytes and length are copied (-ENOMEM with data NULL if malloc fails); returns NL_SKIP |
| `Response.IovarResponse.Dispatch` | brcmfmac_iovar.c:310-313 | each message reaches the callback registered for its kind |
| `Response.IovarResponse.RecvMsgs` | brcmfmac_iovar.c:325 | one nl_recvmsgs call runs the callbacks in order until one returns NL_STOP |
| `Response.IovarResponse.WaitForCompletion` | brcmfmac_iovar.c:323-328 | the loop's final record is the one the wait function gives; it reports completion exactly when error left -EINPROGRESS |
| `Session.SetupFailure` | brcmfmac_iovar.c:237-321 | a failure before sending returns the negative code of the first step that fails, in source order (-ENOMEM for the socket, the connect code, the resolve code, -ENOMEM for the blob, message and callback allocations, the send code); nothing is sent; the record stays data NULL, len 0, error -EINPROGRESS |
| `Session.RequestShape` | brcmfmac_iovar.c:294-301 | a request is sent exactly when setup succeeds, and it has vendor ID 0x001018, subcommand 1, a blob of 20 + payload_len bytes and the given header and payload |
| `Session.ReturnsFinalError` | brcmfmac_iovar.c:323-328 | after a send, the returned value equals the record's final error, which is not -EINPROGRESS; the record stays consistent |
| `Session.ExchangeCompletes` | brcmfmac_iovar.c:323-326 | a sent request returns if some reply batch holds a terminal event and no error callback in that batch carries -EINPROGRESS |
| `Session.SendVendorCmd` | brcmfmac_iovar.c:223-339 | the steps of send_vendor_cmd give the exchange its specification function describes |
| `IovarInt.GetIntResult` | brcmfmac_iovar.c:362-378 | GET returns 0 and a value exactly when the exchange returned 0 with at least 4 bytes, and the value is their little-endian reading; a non-zero exchange code passes through unchanged; otherwise -ENODATA |
| `IovarInt.GetRequest` | brcmfmac_iovar.c:348-360 | a GET sends cmd 262, set 0, offset 20, magic 0, the GET ret_len and the payload name followed by NUL |
| `IovarInt.SetRequest` | brcmfmac_iovar.c:388-406 | a SET sends cmd 263, set 1, ret_len = strlen + 5, and a payload that splits back into name and value |
| `IovarInt.SetIntResult` | brcmfmac_iovar.c:396-416 | SET returns the exchange's code unchanged; a failed calloc returns -ENOMEM and sends nothing; 0 means the record's error was 0 |
| `IovarInt.GetIovarInt` | brcmfmac_iovar.c:348-379 | the steps of get_iovar_int give the outcome its specification function describes |
| `IovarInt.SetIovarInt` | brcmfmac_iovar.c:388-417 | the steps of set_iovar_int give the outcome its specification function describes |
| `IovarInt.ScenarioGetBtcMode` | brcmfmac_iovar.c:362-372 | reading btc_mode with reply bytes 01 00 00 00 then an ack returns 0 with value 1 |
| `IovarInt.ScenarioSetBtcMode` | brcmfmac_iovar.c:400-406 | writing 4 to btc_mode sends "btc_mode\0" followed by 04 00 00 00, with ret_len 13 |
| `IovarInt.ScenarioShortReply` | brcmfmac_iovar.c:368-378 | a 2-byte reply makes the read fail with -ENODATA |
| `IovarInt.ScenarioDriverAbsent` | brcmfmac_iovar.c:256-261 | nl80211 family resolution failing returns its code and sends nothing |
| `IovarInt.ScenarioFirmwareRejects` | brcmfmac_iovar.c:126-133 | an error callback with -22 makes the write return -22 |
| `IovarInt.ScenarioFirstDataWins` | brcmfmac_iovar.c:187-198 | with two data attributes, the value comes from the first one |

## Left out

- libnl itself (`nl_socket_alloc`, `genl_connect`, `genl_ctrl_resolve`, `nlmsg_alloc`, `genlmsg_put`, `nl_cb_*`, `nl_send_auto`, `nl_recvmsgs`) is foreign library and kernel I/O. Each step is replaced by its outcome in `Transport`. Replies are given in advance and do not depend on the request.
- The `nla_put*` return values are ignored by the source. The model assumes that every attribute fits in the message.
- `nla_parse` and `nla_for_each_nested` (TLV layout and alignment): the model receives the nested attributes already parsed as (type, bytes) pairs.
- The unbounded blocking wait: replies are a finite sequence of batches. When they run out while error is still -EINPROGRESS, the result is `Blocked`/`Pending`; the real program would block there. Termination of the real socket loop is not claimed.
- libnl's handling inside one `nl_recvmsgs` call is reduced to this: NL_STOP ends the batch and NL_SKIP goes on to the next message. Multipart flags, sequence checks and libnl's own return codes are not modelled.
- Memory ownership (`malloc`, `calloc`, `free`) is not modelled. Nor is the leak when a second data message overwrites `resp->data`. A failed malloc of the reply copy is an input flag (`allocOk`), and so is a failed calloc of the SET buffer (`payloadAlloc`). `data` is an optional byte sequence rather than a pointer.
- `main`, `usage`, `if_nametoindex`, `strtoul`, `strerror` and all `printf`/`fprintf` output are command-line plumbing and process I/O. The interface index is a parameter.
- Byte order is fixed to little-endian, the host order the source relies on (brcmfmac_iovar.c:370).
- Error codes from libnl steps and from the driver are opaque integers. They are passed through and not interpreted.
- The liveness lemmas (`RecvBatchSticky`, `RecvBatchEnds`, `WaitCompletes`, `ExchangeCompletes`) assume that no error callback carries -EINPROGRESS itself (`SaneErrors`). The source cannot tell such an error from "still waiting": it overwrites an earlier 0 and the loop keeps waiting, as `InProgressErrorKeepsWaiting` shows.
- `size_t` arithmetic (`strlen + 1`, `sizeof(hdr) + payload_len`) is unbounded in the model. It could only wrap for objects larger than the address space.
- IovarPayload.GetRetLenBounds: stated only for names shorter than 2^31 - 5 bytes. Longer names wrap on the conversion to `int32_t`; `SizeToI32` models that wrap exactly.
- IovarInt.SetRequest: states ret_len = strlen + 5 only for names shorter than 2^31 - 5 bytes, for the same reason.
- IovarPayload.SetPayloadLayout: states ret_len = strlen + 5 only for names shorter than 2^31 - 5 bytes, for the same reason.
