/** The vendor-data blob of a BRCMF_VNDR_CMDS_DCMD nl80211 vendor command:
    a 20-byte `brcmf_vndr_dcmd_hdr` followed by the iovar payload, and the
    outer NL80211_CMD_VENDOR request that carries it. */
module VendorCodec {
  import opened Bytes
  import opened Wrappers

  /** nl80211 vendor ID: the Broadcom OUI. */
  const BROADCOM_OUI: u32 := 0x001018
  /** Vendor subcommand for dongle command passthrough. */
  const BRCMF_VNDR_CMDS_DCMD: u32 := 1
  /** Firmware interface layer command IDs. */
  const BRCMF_C_GET_VAR: u32 := 262
  const BRCMF_C_SET_VAR: u32 := 263
  /** sizeof(struct brcmf_vndr_dcmd_hdr): five 4-byte fields, no padding. */
  const HDR_SIZE: nat := 20

  datatype DcmdHdr = DcmdHdr(cmd: u32, len: i32, offset: u32, setFlag: u32, magic: u32)

  /** The header `send_vendor_cmd` fills in for a command. */
  function MakeHdr(cmd: u32, isSet: int, retLen: i32): (h: DcmdHdr)
    ensures h.cmd == cmd && h.len == retLen && h.offset == HDR_SIZE && h.magic == 0
    ensures h.setFlag == 1 <==> isSet != 0
    ensures h.setFlag == 0 <==> isSet == 0
  {
    DcmdHdr(cmd, retLen, HDR_SIZE, if isSet != 0 then 1 else 0, 0)
  }

  /** The header's in-memory layout on a little-endian host. */
  function EncodeHdr(h: DcmdHdr): (b: seq<byte>)
    ensures |b| == HDR_SIZE
  {
    Le32(h.cmd) + Le32(I32Bits(h.len)) + Le32(h.offset) + Le32(h.setFlag) + Le32(h.magic)
  }

  /** How the receiving side reads the header positionally. */
  function DecodeHdr(b: seq<byte>): (h: DcmdHdr)
    requires |b| >= HDR_SIZE
  {
    DcmdHdr(FromLe32(b[0..4]), I32FromBits(FromLe32(b[4..8])), FromLe32(b[8..12]),
            FromLe32(b[12..16]), FromLe32(b[16..20]))
  }

  /** The header is read from the first 20 bytes only. */
  lemma DecodeHdrPrefix(b: seq<byte>)
    requires |b| >= HDR_SIZE
    ensures DecodeHdr(b) == DecodeHdr(b[..HDR_SIZE])
  {
    var c := b[..HDR_SIZE];
    assert b[0..4] == c[0..4] && b[4..8] == c[4..8] && b[8..12] == c[8..12];
    assert b[12..16] == c[12..16] && b[16..20] == c[16..20];
  }

  lemma DecodeEncodeHdr(h: DcmdHdr)
    ensures DecodeHdr(EncodeHdr(h)) == h
  {
    var b := EncodeHdr(h);
    assert b[0..4] == Le32(h.cmd);
    assert b[4..8] == Le32(I32Bits(h.len));
    assert b[8..12] == Le32(h.offset);
    assert b[12..16] == Le32(h.setFlag);
    assert b[16..20] == Le32(h.magic);
    FromLe32Le32(h.cmd);
    FromLe32Le32(I32Bits(h.len));
    FromLe32Le32(h.offset);
    FromLe32Le32(h.setFlag);
    FromLe32Le32(h.magic);
    I32BitsRoundTrip(h.len, 0);
  }

  lemma EncodeDecodeHdr(b: seq<byte>)
    requires |b| == HDR_SIZE
    ensures EncodeHdr(DecodeHdr(b)) == b
  {
    Le32FromLe32(b[0..4]);
    Le32FromLe32(b[4..8]);
    Le32FromLe32(b[8..12]);
    Le32FromLe32(b[12..16]);
    Le32FromLe32(b[16..20]);
    I32BitsRoundTrip(0, FromLe32(b[4..8]));
    assert b == b[0..4] + b[4..8] + b[8..12] + b[12..16] + b[16..20];
  }

  /** The vendor-data blob: header, then the caller's payload unchanged. */
  function VendorBlob(cmd: u32, isSet: int, payload: seq<byte>, retLen: i32): (b: seq<byte>)
  {
    EncodeHdr(MakeHdr(cmd, isSet, retLen)) + payload
  }

  /** The receiving handler's view of a blob: it needs at least a whole header
      and an offset within the blob; the payload starts at that offset. The
      magic field is not validated. */
  function DecodeBlob(b: seq<byte>): (r: Option<(DcmdHdr, seq<byte>)>)
    ensures r.Some? ==> |b| >= HDR_SIZE && r.value.0.offset <= |b|
  {
    if |b| < HDR_SIZE then None
    else
      var h := DecodeHdr(b);
      if h.offset > |b| then None else Some((h, b[h.offset..]))
  }

  /** The blob is exactly 20 + |payload| bytes; the receiver recovers the header
      fields `send_vendor_cmd` set and the payload unchanged. */
  lemma VendorBlobLayout(cmd: u32, isSet: int, payload: seq<byte>, retLen: i32)
    ensures |VendorBlob(cmd, isSet, payload, retLen)| == HDR_SIZE + |payload|
    ensures VendorBlob(cmd, isSet, payload, retLen)[HDR_SIZE..] == payload
    ensures DecodeBlob(VendorBlob(cmd, isSet, payload, retLen))
            == Some((MakeHdr(cmd, isSet, retLen), payload))
  {
    var h := MakeHdr(cmd, isSet, retLen);
    var b := VendorBlob(cmd, isSet, payload, retLen);
    assert b[..HDR_SIZE] == EncodeHdr(h);
    DecodeEncodeHdr(h);
    DecodeHdrPrefix(b);
  }

  /** Conversely, a blob the receiver accepts with offset 20 is exactly the
      encoding of its header followed by its payload. */
  lemma DecodeBlobSound(b: seq<byte>, h: DcmdHdr, p: seq<byte>)
    requires DecodeBlob(b) == Some((h, p)) && h.offset == HDR_SIZE
    ensures b == EncodeHdr(h) + p
  {
    DecodeHdrPrefix(b);
    EncodeDecodeHdr(b[..HDR_SIZE]);
    assert b == b[..HDR_SIZE] + b[HDR_SIZE..];
  }

  /** The calloc'd vendor_data buffer of `send_vendor_cmd`, filled with the
      header and then the payload. */
  method BuildVendorData(cmd: u32, isSet: int, payload: seq<byte>, retLen: i32)
    returns (data: array<byte>)
    ensures fresh(data)
    ensures data[..] == VendorBlob(cmd, isSet, payload, retLen)
  {
    var hdr := EncodeHdr(MakeHdr(cmd, isSet, retLen));
    data := new byte[HDR_SIZE + |payload|];
    CopyInto(data, 0, hdr);
    CopyInto(data, HDR_SIZE, payload);
    assert data[..] == hdr + payload;
  }

  /** The NL80211_CMD_VENDOR message: interface index, vendor ID, vendor
      subcommand and vendor data, in the order they are put. */
  datatype NlRequest = NlRequest(ifindex: u32, vendorId: u32, subcmd: u32, vendorData: seq<byte>)

  function VendorRequest(ifindex: u32, blob: seq<byte>): (m: NlRequest)
    ensures m.vendorId == BROADCOM_OUI && m.subcmd == BRCMF_VNDR_CMDS_DCMD
    ensures m.ifindex == ifindex && m.vendorData == blob
  {
    NlRequest(ifindex, BROADCOM_OUI, BRCMF_VNDR_CMDS_DCMD, blob)
  }
}
