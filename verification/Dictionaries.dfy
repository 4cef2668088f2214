/** The field tables of the supported FIX 4.2 messages (src/fix/codec.rs). */
module Dictionaries {
  import opened Orders
  import opened Bytes

  const LOGON: Text := [65]
  const HEARTBEAT: Text := [48]
  const TEST_REQUEST: Text := [49]
  const RESEND_REQUEST: Text := [50]
  const REJECT: Text := [51]
  const SEQUENCE_RESET: Text := [52]
  const LOGOUT: Text := [53]
  const NEW_ORDER: Text := [68]
  const CANCEL: Text := [70]
  const REPLACE: Text := [71]
  const EXECUTION: Text := [56]
  const CANCEL_REJECT: Text := [57]
  const MASS_QUOTE: Text := [105]
  const QUOTE_ACK: Text := [98]
  const SECURITY_DEFINITION: Text := [100]
  const BUSINESS_REJECT: Text := [106]

  predicate IsHeader(tag: nat) {
    tag in {35, 49, 56, 115, 128, 34, 50, 142, 57, 143, 116, 144, 129, 145, 43, 97, 52, 122, 347, 369, 370}
  }

  const QUOTE_SET_FIELDS: seq<nat> := [
    302, 311, 312, 309, 305, 310, 313, 314, 315, 316, 317, 436, 435, 308, 306, 307, 367, 304, 295]

  const QUOTE_ENTRY_FIELDS: seq<nat> := [
    299, 55, 65, 48, 22, 167, 200, 205, 201, 202, 206, 231, 223, 207, 106, 107, 132, 133, 134, 135, 62, 188,
    190, 189, 191, 60, 336, 64, 40, 193, 192, 15]

  // Body fields of each kind outside groups.
  const LOGON_FIELDS: seq<nat> := [98, 108, 141, 383]
  const TEST_REQUEST_FIELDS: seq<nat> := [112]
  const RESEND_REQUEST_FIELDS: seq<nat> := [7, 16]
  const REJECT_FIELDS: seq<nat> := [45, 371, 372, 373, 58]
  const SEQUENCE_RESET_FIELDS: seq<nat> := [123, 36]
  const LOGOUT_FIELDS: seq<nat> := [58]
  const NEW_ORDER_FIELDS: seq<nat> :=
    [11, 109, 76, 1, 63, 64, 21, 18, 110, 111, 100, 81, 55, 65, 48, 22, 167, 200, 205, 201, 202, 206, 231]
    + [223, 207, 106, 107, 140, 54, 114, 60, 38, 152, 40, 44, 99, 15, 376, 377, 23, 117, 59, 168, 432, 126]
    + [427, 12, 13, 47, 121, 120, 58, 193, 192, 77, 203, 204, 210, 211, 388, 389, 439, 440]
  const CANCEL_FIELDS: seq<nat> :=
    [41, 37, 11, 66, 1, 109, 76, 55, 65, 48, 22, 167, 200, 205, 201, 202, 206, 231, 223, 207, 106, 107, 54]
    + [60, 38, 152, 376, 377, 58]
  const REPLACE_FIELDS: seq<nat> :=
    [37, 109, 76, 41, 11, 66, 1, 63, 64, 21, 18, 110, 111, 100, 55, 65, 48, 22, 167, 200, 205, 201, 202]
    + [206, 231, 223, 207, 106, 107, 54, 60, 38, 152, 40, 44, 99, 211, 388, 389, 376, 377, 15, 59, 168, 432]
    + [126, 427, 12, 13, 47, 121, 120, 58, 193, 192, 77, 203, 204, 210, 114, 439, 440]
  const EXECUTION_FIELDS: seq<nat> :=
    [37, 198, 11, 41, 109, 76, 66, 17, 20, 19, 150, 39, 103, 378, 1, 63, 64, 55, 65, 48, 22, 167, 200, 205]
    + [201, 202, 206, 231, 223, 207, 106, 107, 54, 38, 152, 40, 44, 99, 211, 388, 389, 15, 376, 377, 59, 168]
    + [432, 126, 18, 47, 32, 31, 194, 195, 30, 336, 29, 151, 14, 6, 424, 425, 426, 427, 75, 60, 113, 12, 13]
    + [381, 119, 120, 155, 156, 21, 110, 111, 77, 210, 58, 193, 192, 439, 440, 442]
  const CANCEL_REJECT_FIELDS: seq<nat> := [37, 198, 11, 41, 39, 109, 76, 66, 1, 60, 434, 102, 58]
  const MASS_QUOTE_FIELDS: seq<nat> := [131, 117, 301, 293, 294]
  const QUOTE_ACK_FIELDS: seq<nat> := [131, 117, 297, 300, 301, 336, 58]
  const SECURITY_DEFINITION_FIELDS: seq<nat> :=
    [320, 322, 323, 393, 55, 65, 48, 22, 167, 200, 205, 201, 202, 206, 231, 223, 207, 106, 107, 15, 336, 58]
  const BUSINESS_REJECT_FIELDS: seq<nat> := [45, 372, 379, 380, 58]

  function ScalarFields(kind: Text): seq<nat> {
    if kind == LOGON then LOGON_FIELDS
    else if kind == HEARTBEAT || kind == TEST_REQUEST then TEST_REQUEST_FIELDS
    else if kind == RESEND_REQUEST then RESEND_REQUEST_FIELDS
    else if kind == REJECT then REJECT_FIELDS
    else if kind == SEQUENCE_RESET then SEQUENCE_RESET_FIELDS
    else if kind == LOGOUT then LOGOUT_FIELDS
    else if kind == NEW_ORDER then NEW_ORDER_FIELDS
    else if kind == CANCEL then CANCEL_FIELDS
    else if kind == REPLACE then REPLACE_FIELDS
    else if kind == EXECUTION then EXECUTION_FIELDS
    else if kind == CANCEL_REJECT then CANCEL_REJECT_FIELDS
    else if kind == MASS_QUOTE then MASS_QUOTE_FIELDS
    else if kind == QUOTE_ACK then QUOTE_ACK_FIELDS
    else if kind == SECURITY_DEFINITION then SECURITY_DEFINITION_FIELDS
    else if kind == BUSINESS_REJECT then BUSINESS_REJECT_FIELDS
    else []
  }

  /** Fields a supported kind must carry; None for a kind outside the profile. */
  function Required(kind: Text): Option<seq<nat>> {
    if kind == LOGON then Some([98, 108])
    else if kind == HEARTBEAT || kind == LOGOUT then Some([])
    else if kind == TEST_REQUEST then Some([112])
    else if kind == RESEND_REQUEST then Some([7, 16])
    else if kind == REJECT then Some([45])
    else if kind == SEQUENCE_RESET then Some([36])
    else if kind == NEW_ORDER then Some([11, 21, 55, 54, 60, 40, 38])
    else if kind == CANCEL then Some([11, 41, 55, 54, 60])
    else if kind == REPLACE then Some([11, 41, 21, 55, 54, 60, 40, 38])
    else if kind == EXECUTION then Some([37, 17, 20, 150, 39, 55, 54, 151, 14, 6])
    else if kind == CANCEL_REJECT then Some([37, 11, 41, 39, 434])
    else if kind == MASS_QUOTE then Some([117, 296, 302, 311, 304, 295, 299, 55])
    else if kind == QUOTE_ACK then Some([297])
    else if kind == SECURITY_DEFINITION then Some([320, 322, 323, 393])
    else if kind == BUSINESS_REJECT then Some([372, 380])
    else None
  }

  /** Length/data fields, whose encoding cannot be skipped. */
  predicate IsLengthData(tag: nat) {
    tag in {89, 90, 91, 93, 95, 96, 212, 213, 445, 446} || 348 <= tag <= 365
  }

  /** Counters of repeating groups. */
  predicate IsGroupCount(tag: nat) {
    tag in {33, 73, 78, 124, 136, 146, 199, 215, 267, 268, 295, 296, 382, 384, 386, 398, 420, 428}
  }

  /** Fields no message may carry; MassQuote alone has its two groups. */
  predicate ShapeOk(tag: nat, kind: Text) {
    !IsLengthData(tag) && (IsGroupCount(tag) ==> kind == MASS_QUOTE && (tag == 295 || tag == 296))
  }

  /** User-defined tags. */
  predicate IsCustom(tag: nat) {
    tag >= 5000
  }

  /** Values of the enumerated fields. */
  predicate EnumOk(tag: nat, value: Text) {
    if tag == 373 then (|value| == 1 && IsDigit(value[0])) || value == [49, 48] || value == [49, 49]
    else if tag == 380 then |value| == 1 && 48 <= value[0] <= 53
    else if tag == 102 then |value| == 1 && 48 <= value[0] <= 51
    else if tag == 300 then |value| == 1 && 49 <= value[0] <= 57
    else true
  }

  /** Where a tag stands in a table. */
  function IndexOf(table: seq<nat>, tag: nat): (r: Option<nat>)
    ensures r.Some? ==> r.value < |table| && table[r.value] == tag && tag !in table[..r.value]
    ensures r.None? ==> tag !in table
  {
    if table == [] then None
    else if table[0] == tag then Some(0)
    else
      match IndexOf(table[1..], tag)
      case None => None
      case Some(i) => assert table[..i + 1] == [table[0]] + table[1..][..i]; Some(i + 1)
  }

  lemma IndexIs(table: seq<nat>, tag: nat, i: nat)
    requires i < |table| && table[i] == tag && tag !in table[..i]
    ensures IndexOf(table, tag) == Some(i)
  {
    assert table[i] in table;
  }

  lemma ScalarStart(kind: Text)
    ensures ScalarFields(kind) == [] || !IsCustom(ScalarFields(kind)[0])
  {
    assert NEW_ORDER_FIELDS[0] == 11;
    assert CANCEL_FIELDS[0] == 41;
    assert REPLACE_FIELDS[0] == 37;
    assert EXECUTION_FIELDS[0] == 37;
  }

  lemma GroupCounts()
    ensures 295 !in MASS_QUOTE_FIELDS && 295 !in QUOTE_ENTRY_FIELDS
    ensures QUOTE_SET_FIELDS[0] == 302 && QUOTE_ENTRY_FIELDS[0] == 299
  {
  }

  lemma RequiredAreStandard(kind: Text)
    requires Required(kind).Some?
    ensures forall i :: 0 <= i < |Required(kind).value| ==>
              !IsCustom(Required(kind).value[i]) && !IsHeader(Required(kind).value[i])
  {
  }
}
