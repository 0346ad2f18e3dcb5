/** The name of an attribute proxy: "[tango://][host:port/]a/b/c/attribute[#dbase=yes|no]", the same with a
    device alias in place of a/b/c, or an attribute alias alone. */
module AttributeName {
  import opened Text
  import opened Dotted
  import Stream

  datatype NameError =
    | UnsupportedProtocol
    | UnsupportedModifier
    | WrongSyntax
    | AliasNotDefined

  datatype Result<+T> = Ok(value: T) | Err(error: NameError) {
    predicate IsFailure() { Err? }
    function PropagateFailure<U>(): Result<U>
      requires Err?
    {
      Err(error)
    }
    function Extract(): T
      requires Ok?
    {
      value
    }
  }

  /** The fields `parse_name` fills. */
  datatype Address = Address(
    dbaseUsed: bool, fromEnvVar: bool,
    host: string, port: string, portNum: int,
    dbHost: string, dbPort: string, dbPortNum: int,
    deviceName: string, aliasName: string, attrName: string)

  const FROM_IOR := "IOR"
  const NOT_USED := "Unused"

  /** Before anything is parsed. */
  const Blank := Address(false, false, "", "", 0, "", "", 0, "", "", "")

  /** The database an attribute alias is looked up in, and what each database answers. */
  datatype Database = FromEnvironment | AtHost(host: string, port: int)

  type Aliases = map<(Database, string), string>

  /** `s.substr(from, count)` with an unsigned count: a negative difference is a huge one. */
  function Substr(s: string, from: nat, count: int): string
    requires from <= |s|
  {
    if count < 0 || from + count > |s| then s[from..] else s[from..from + count]
  }

  /** `s << text << ends; s >> number` on a new stream. */
  function PortNumber(text: string): int {
    Stream.Fresh.Next(text, Stream.INT_MIN, Stream.INT_MAX).0
  }

  // ----- the steps of parse_name -----

  function WithoutProtocol(name: string): Result<string> {
    var pos := Find(name, "://", 0);
    if pos == -1 then
      Ok(if |name| > 2 && name[0] == '/' && name[1] == '/' then name[2..] else name)
    else if name[..pos] == "tango" then Ok(name[pos + 3..])
    else Err(UnsupportedProtocol)
  }

  /** The name without its modifier, and whether the database is used. */
  function WithoutModifier(name: string): Result<(string, bool)> {
    var pos := FindChar(name, '#', 0);
    if pos == -1 then Ok((name, true))
    else if name[pos + 1..] == "dbase=yes" then Ok((name[..pos], true))
    else if name[pos + 1..] == "dbase=no" then Ok((name[..pos], false))
    else Err(UnsupportedModifier)
  }

  /** Host and port of the device server or of the database; the rest is the device name. */
  function Placed(name: string, dbaseUsed: bool): Result<Address> {
    var colon, slash := FindChar(name, ':', 0), FindChar(name, '/', 0);
    if !dbaseUsed then
      if colon == -1 || slash == -1 then Err(WrongSyntax)
      else
        var port := Substr(name, colon + 1, slash - colon - 1);
        Ok(Blank.(host := name[..colon], port := port, portNum := PortNumber(port),
                  dbHost := NOT_USED, dbPort := NOT_USED, deviceName := name[slash + 1..]))
    else
      var a := Blank.(dbaseUsed := true, host := FROM_IOR, port := FROM_IOR);
      var tmp := if slash == -1 then -1 else FindChar(name[..slash], ':', 0);
      if tmp == -1 then Ok(a.(deviceName := name, fromEnvVar := true))
      else
        var port := name[tmp + 1..slash];
        Ok(a.(dbHost := name[..tmp], dbPort := port, dbPortNum := PortNumber(port), deviceName := name[slash + 1..]))
  }

  /** The number of separators of a device name and the position behind the last one: no field may be
      empty when there is a separator, and there are one, two or four fields. */
  function Fields(name: string): Result<(nat, nat)> {
    var segs := Segments(name, '/');
    if |segs| > 1 && "" in segs then Err(WrongSyntax)
    else if |segs| == 3 || |segs| > 4 then Err(WrongSyntax)
    else Ok((|segs| - 1, BehindLast(name)))
  }

  /** The position behind the last separator, 0 when there is none. */
  function BehindLast(name: string): (r: nat)
    ensures r <= |name|
  {
    RFindChar(name, '/', |name| - 1) + 1
  }

  /** An attribute alias, resolved by a database into a full attribute name. */
  function Resolved(a: Address, aliases: Aliases): Result<Address> {
    if !a.dbaseUsed || ':' in a.deviceName || Find(a.deviceName, "->", 0) != -1 then Err(WrongSyntax)
    else
      var db := if a.fromEnvVar then FromEnvironment else AtHost(a.dbHost, a.dbPortNum);
      if (db, a.deviceName) !in aliases then Err(AliasNotDefined)
      else
        var full := aliases[(db, a.deviceName)];
        if |Segments(full, '/')| != 4 then Err(WrongSyntax)
        else Ok(a.(attrName := full[BehindLast(full)..], deviceName := full[..BehindLast(full) - 1]))
  }

  /** The attribute name in its original case: between the last separator and the modifier. */
  function CasedAttribute(cased: string): string {
    var pos := RFindChar(cased, '/', |cased| - 1) + 1;
    var mod := RFindChar(cased, '#', |cased| - 1);
    if mod != -1 then Substr(cased, pos, mod - pos) else cased[pos..]
  }

  /** A device name or device alias followed by an attribute name. */
  function Named(a: Address, name: string, nSep: nat, end: nat, cased: string): Result<Address>
    requires 0 < end <= |a.deviceName|
  {
    var device := a.deviceName[..end - 1];
    if nSep != 1 then Ok(a.(deviceName := device, attrName := CasedAttribute(cased)))
    else if a.dbHost == NOT_USED then Err(WrongSyntax)
    else
      var rpos := RFindChar(name, '/', |name| - 1);
      var alias := if !a.fromEnvVar && rpos != -1 then name[..rpos] else device;
      Ok(a.(deviceName := alias, aliasName := alias, attrName := CasedAttribute(cased)))
  }

  /** `parse_name` as a whole. */
  function Parsed(fullName: string, aliases: Aliases): Result<Address> {
    var woProtocol :- WithoutProtocol(Lower(fullName));
    var (name, dbaseUsed) :- WithoutModifier(woProtocol);
    var a :- Placed(name, dbaseUsed);
    var (nSep, end) :- Fields(a.deviceName);
    if nSep == 0 then Resolved(a, aliases)
    else
      SeparatorFound(a.deviceName);
      Named(a, name, nSep, end, fullName)
  }

  lemma {:induction false} SeparatorFound(name: string)
    ensures |Segments(name, '/')| > 1 <==> BehindLast(name) > 0
  {
    hide Segments, FindChar;
    var r := RFindChar(name, '/', |name| - 1);
    if r != -1 {
      assert name == name[..r] + ['/'] + name[r + 1..];
      SplitAtDelimiter(name[..r], '/', name[r + 1..]);
    } else {
      NoDelimiter(name, '/');
    }
  }

  // ----- the loops and the object -----

  /** The field-splitting loop: `rest` is always the part of the name from `end` on. */
  method SplitFields(deviceName: string) returns (r: Result<(nat, nat)>)
    ensures r == Fields(deviceName)
  {
    hide Segments, FindChar, BehindLast;
    var nSep, end := 0, 0;
    var rest := deviceName;
    var pos := 0;
    ghost var done: seq<string> := [];
    while pos != -1
      invariant end <= |deviceName| && rest == deviceName[end..]
      invariant Segments(deviceName, '/') == done + Segments(rest, '/')
      invariant |done| == nSep && "" !in done
      invariant pos >= -1 && (pos == -1 ==> '/' !in rest)
      invariant nSep > 0 ==> rest != ""
      invariant end == 0 || deviceName[end - 1] == '/'
      invariant nSep > 0 <==> end > 0
      decreases |rest|, pos
    {
      pos := FindChar(rest, '/', 0);
      if pos != -1 {
        CutField(rest, pos);
        if pos == 0 {
          assert Segments(deviceName, '/')[nSep] == "";
          return Err(WrongSyntax);
        }
        nSep := nSep + 1;
        done := done + [rest[..pos]];
        rest := rest[pos + 1..];
        if |rest| == 0 {
          NoDelimiter(rest, '/');
          assert Segments(deviceName, '/')[nSep] == "";
          return Err(WrongSyntax);
        }
        end := end + pos + 1;
      }
    }
    NoDelimiter(rest, '/');
    LastSeparator(deviceName, end);
    if nSep > 1 && nSep != 3 {
      return Err(WrongSyntax);
    }
    return Ok((nSep, end));
  }

  lemma {:induction false} CutField(rest: string, pos: nat)
    requires pos == FindChar(rest, '/', 0)
    ensures Segments(rest, '/') == [rest[..pos]] + Segments(rest[pos + 1..], '/')
  {
  }

  lemma {:induction false} LastSeparator(name: string, end: nat)
    requires end <= |name| && '/' !in name[end..]
    requires end == 0 || name[end - 1] == '/'
    ensures BehindLast(name) == end
  {
    assert forall k | end <= k < |name| :: name[k] == name[end..][k - end];
  }

  /** The fast check of a resolved name: the number of separators and the position behind the last. */
  method CountFields(full: string) returns (nSep: nat, end: nat)
    ensures nSep == |Segments(full, '/')| - 1 && end == BehindLast(full)
  {
    hide Segments, FindChar, BehindLast;
    nSep, end := 0, 0;
    var rest := full;
    var pos := 0;
    while pos != -1
      invariant end <= |full| && rest == full[end..]
      invariant |Segments(full, '/')| == nSep + |Segments(rest, '/')|
      invariant pos >= -1 && (pos == -1 ==> '/' !in rest)
      invariant end == 0 || full[end - 1] == '/'
      decreases |rest|, pos
    {
      pos := FindChar(rest, '/', 0);
      if pos != -1 {
        CutField(rest, pos);
        nSep := nSep + 1;
        rest := rest[pos + 1..];
        end := end + pos + 1;
      }
    }
    NoDelimiter(rest, '/');
    LastSeparator(full, end);
  }

  method ParseResolved(a: Address, aliases: Aliases) returns (r: Result<Address>)
    ensures r == Resolved(a, aliases)
  {
    hide Segments, BehindLast;
    if !a.dbaseUsed {
      return Err(WrongSyntax);
    }
    if FindChar(a.deviceName, ':', 0) != -1 {
      return Err(WrongSyntax);
    }
    if Find(a.deviceName, "->", 0) != -1 {
      return Err(WrongSyntax);
    }
    var db := if a.fromEnvVar then FromEnvironment else AtHost(a.dbHost, a.dbPortNum);
    if (db, a.deviceName) !in aliases {
      return Err(AliasNotDefined);
    }
    var full := aliases[(db, a.deviceName)];
    var nSep, end := CountFields(full);
    if nSep != 3 {
      return Err(WrongSyntax);
    }
    SeparatorFound(full);
    return Ok(a.(attrName := full[end..], deviceName := full[..end - 1]));
  }

  method Parse(fullName: string, aliases: Aliases) returns (r: Result<Address>)
    ensures r == Parsed(fullName, aliases)
  {
    hide Segments, BehindLast, WithoutProtocol, WithoutModifier, Placed, Resolved, Named, Lower;
    var woProtocol :- WithoutProtocol(Lower(fullName));
    var modified :- WithoutModifier(woProtocol);
    var name, dbaseUsed := modified.0, modified.1;
    var a :- Placed(name, dbaseUsed);
    var fields :- SplitFields(a.deviceName);
    var nSep, end := fields.0, fields.1;
    if nSep == 0 {
      r := ParseResolved(a, aliases);
    } else {
      SeparatorFound(a.deviceName);
      r := Named(a, name, nSep, end, fullName);
    }
  }

  class AttributeProxy {
    var dbaseUsed: bool
    var fromEnvVar: bool
    var host: string
    var port: string
    var portNum: int
    var dbHost: string
    var dbPort: string
    var dbPortNum: int
    var deviceName: string
    var aliasName: string
    var attrName: string

    function State(): Address
      reads this
    {
      Address(dbaseUsed, fromEnvVar, host, port, portNum, dbHost, dbPort, dbPortNum, deviceName, aliasName, attrName)
    }

    /** Builds the address part of a proxy. The name is handed back in lower case, as the source leaves
        its argument. */
    method ParseName(fullName: string, aliases: Aliases) returns (lowered: string, error: Option<NameError>)
      modifies this
      ensures lowered == Lower(fullName)
      ensures Parsed(fullName, aliases).Ok? ==> error == None && State() == Parsed(fullName, aliases).value
      ensures Parsed(fullName, aliases).Err? ==> error == Some(Parsed(fullName, aliases).error) && State() == old(State())
    {
      hide Parsed;
      lowered, error := Lower(fullName), None;
      var r := Parse(fullName, aliases);
      match r
      case Ok(a) =>
        dbaseUsed, fromEnvVar, host, port, portNum := a.dbaseUsed, a.fromEnvVar, a.host, a.port, a.portNum;
        dbHost, dbPort, dbPortNum := a.dbHost, a.dbPort, a.dbPortNum;
        deviceName, aliasName, attrName := a.deviceName, a.aliasName, a.attrName;
      case Err(e) =>
        error := Some(e);
    }
  }
}
