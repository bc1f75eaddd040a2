/** The audit-log CSV export (src/modules/audit-log/audit-log.service.ts) against a strict reader of
    section 2 of RFC 4180 with LF line ends. */
module AuditCsv {
  import opened Common

  // ------------------------------------------------------------------ the printer

  /** A printed field is either raw or wrapped in quotes with its own quotes doubled. */
  datatype Field = Raw(text: string) | Quoted(text: string)

  /** One fetched row; a missing user and null columns are None, metadata is its JSON text. */
  datatype Log = Log(
    createdAt: string, name: Option<string>, email: Option<string>, action: string, targetId: Option<string>,
    targetType: Option<string>, ipAddress: Option<string>, metadata: Option<string>)

  function OrEmpty(s: Option<string>): string {
    if s.Some? then s.value else ""
  }

  function Escape(s: string): string {
    if s == "" then "" else (if s[0] == '"' then "\"\"" else [s[0]]) + Escape(s[1..])
  }

  function PrintField(f: Field): string {
    match f
    case Raw(s) => s
    case Quoted(s) => "\"" + Escape(s) + "\""
  }

  function Fields(log: Log): (fs: seq<Field>)
    ensures |fs| == 8
  {
    [Raw(log.createdAt), Quoted(OrEmpty(log.name)), Raw(OrEmpty(log.email)), Raw(log.action),
     Raw(OrEmpty(log.targetId)),
     Raw(OrEmpty(log.targetType)), Raw(OrEmpty(log.ipAddress)),
     if log.metadata.Some? then Quoted(log.metadata.value) else Raw("")]
  }

  function PrintRow(fs: seq<Field>): string {
    if fs == [] then ""
    else if |fs| == 1 then PrintField(fs[0])
    else PrintField(fs[0]) + "," + PrintRow(fs[1..])
  }

  function PrintRows(rows: seq<seq<Field>>): string {
    if rows == [] then ""
    else if |rows| == 1 then PrintRow(rows[0])
    else PrintRow(rows[0]) + "\n" + PrintRows(rows[1..])
  }

  const HEADER: seq<Field> :=
    [Raw("Date"), Raw("User"), Raw("Email"), Raw("Action"), Raw("Target ID"), Raw("Target Type"), Raw("IP Address"),
     Raw("Metadata")]

  /** Date,User,Email,Action,Target ID,Target Type,IP Address,Metadata and a line end. */
  function HeaderLine(): string {
    "Date" + "," + ("User" + "," + ("Email" + "," +
                                    ("Action" + "," + ("Target ID" + "," +
                                                       ("Target Type" + "," + ("IP Address" + "," + "Metadata"))))))
    + "\n"
  }

  function AllFields(logs: seq<Log>): seq<seq<Field>> {
    seq(|logs|, i requires 0 <= i < |logs| => Fields(logs[i]))
  }

  function ExportCsv(logs: seq<Log>): string {
    HeaderLine() + PrintRows(AllFields(logs))
  }

  // ------------------------------------------------------------------ the reader

  predicate AtEnd(rest: string) {
    rest == "" || rest[0] == ',' || rest[0] == '\n'
  }

  /** Content of a quoted field up to its closing quote. */
  function ReadQuoted(t: string): (r: Option<(string, string)>)
    ensures r.Some? ==> |r.value.1| < |t|
  {
    if t == "" then None
    else if t[0] == '"' then
      if |t| > 1 && t[1] == '"' then
        var r := ReadQuoted(t[2..]);
        if r == None then None else Some(("\"" + r.value.0, r.value.1))
      else Some(("", t[1..]))
    else
      var r := ReadQuoted(t[1..]);
      if r == None then None else Some(([t[0]] + r.value.0, r.value.1))
  }

  /** Content of an unquoted field; a quote inside it is malformed. */
  function ReadRaw(t: string): (r: Option<(string, string)>)
    ensures r.Some? ==> |r.value.1| <= |t| && (t != "" && !AtEnd(t) ==> |r.value.1| < |t|)
  {
    if AtEnd(t) then Some(("", t))
    else if t[0] == '"' then None
    else
      var r := ReadRaw(t[1..]);
      if r == None then None else Some(([t[0]] + r.value.0, r.value.1))
  }

  function ReadField(t: string): (r: Option<(string, string)>)
    ensures r.Some? ==> AtEnd(r.value.1) && |r.value.1| <= |t| && (t != "" && !AtEnd(t) ==> |r.value.1| < |t|)
  {
    var r := if t != "" && t[0] == '"' then ReadQuoted(t[1..]) else ReadRaw(t);
    if r.Some? && AtEnd(r.value.1) then r else None
  }

  /** The fields of one record, and the text after its line end. */
  function ReadRecord(t: string): (r: Option<(seq<string>, string)>)
    ensures r.Some? ==> |r.value.1| <= |t| && (t != "" ==> |r.value.1| < |t|)
    decreases |t|
  {
    var f := ReadField(t);
    if f == None then None
    else if f.value.1 == "" then Some(([f.value.0], ""))
    else if f.value.1[0] == '\n' then Some(([f.value.0], f.value.1[1..]))
    else
      var r := ReadRecord(f.value.1[1..]);
      if r == None then None else Some(([f.value.0] + r.value.0, r.value.1))
  }

  function ReadFile(t: string): Option<seq<seq<string>>>
    decreases |t|
  {
    if t == "" then Some([])
    else
      var r := ReadRecord(t);
      if r == None then None
      else
        var rest := ReadFile(r.value.1);
        if rest == None then None else Some([r.value.0] + rest.value)
  }
}
