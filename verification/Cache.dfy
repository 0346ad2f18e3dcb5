/** `DbServerCache`: the start-up list with its index, and every query on it. */
module Cache {
  import opened ServerData
  import opened ServerCache
  import opened CacheImports

  class DbServerCache {
    const data: seq<string>
    ghost const server: ServerData
    const idx: CacheIdx

    var impAdmData: ImportData
    var impNotifdEventData: ImportData
    var impAdmEventData: ImportData
    var impTacData: ImportData
    var retObjProp: seq<string>
    var retDevList: seq<string>
    var retObjAttProp: seq<string>
    var retObjPipeProp: seq<string>
    var retPropList: seq<string>

    ghost predicate Valid() {
      server.Valid() && data == server.Flatten() && Indexed(data, idx, server)
    }

    constructor (list: seq<string>, ghost sd: ServerData)
      requires sd.Valid() && list == sd.Flatten()
      ensures Valid() && data == list && server == sd
    {
      var x := Walk(list, sd);
      data, server, idx := list, sd, x;
      var none := ImportData([], []);
      impAdmData, impNotifdEventData, impAdmEventData, impTacData := none, none, none, none;
    }

    // ----- the queries; each leaves its reply in a member buffer -----

    method ImportAdmDev() returns (r: Result<ImportData>)
      requires Valid()
      modifies this`impAdmData
      ensures r == Ok(AdminImport(server)) && impAdmData == r.value
    {
      r := CacheImports.ImportAdmDev(data, idx, server);
      impAdmData := r.value;
    }

    method ImportNotifdEvent() returns (r: Result<ImportData>)
      requires Valid()
      modifies this`impNotifdEventData
      ensures r == EventImport(server.notifd)
      ensures r.Ok? ==> impNotifdEventData == r.value
    {
      r := CacheImports.ImportNotifdEvent(data, idx, server);
      if r.Ok? {
        impNotifdEventData := r.value;
      }
    }

    method ImportAdmEvent() returns (r: Result<ImportData>)
      requires Valid()
      modifies this`impAdmEventData
      ensures r == AdminEventImport(server)
      ensures r.Ok? ==> impAdmEventData == r.value
    {
      r := CacheImports.ImportAdmEvent(data, idx, server);
      if r.Ok? {
        impAdmEventData := r.value;
      }
    }

    method ImportTacDev(dev: string) returns (r: Result<ImportData>)
      requires Valid()
      modifies this`impTacData
      ensures r == TacImport(server.tac, dev)
      ensures r.Ok? ==> impTacData == r.value
    {
      r := CacheImports.ImportTacDev(data, idx, dev, server);
      if r.Ok? {
        impTacData := r.value;
      }
    }

    method GetClassProperty(inParam: seq<string>) returns (r: Result<seq<string>>)
      requires Valid() && |inParam| > 0
      modifies this`retObjProp
      ensures r == ClassPropertyAnswer(server, inParam)
      ensures r.Ok? ==> retObjProp == r.value
    {
      r := ClassProperty(data, idx, inParam, server);
      if r.Ok? {
        retObjProp := r.value;
      }
    }

    method GetDevProperty(inParam: seq<string>) returns (r: Result<seq<string>>)
      requires Valid() && |inParam| > 0
      modifies this`retObjProp
      ensures r == DevicePropertyAnswer(server, inParam)
      ensures r.Ok? ==> retObjProp == r.value
    {
      r := DeviceProperty(data, idx, inParam, server);
      if r.Ok? {
        retObjProp := r.value;
      }
    }

    method GetObjProperty(inParam: seq<string>) returns (r: Result<seq<string>>)
      requires Valid() && |inParam| > 0
      modifies this`retObjProp
      ensures r == ObjectPropertyAnswer(server, inParam)
      ensures r.Ok? ==> retObjProp == r.value
    {
      r := ObjectProperty(data, idx, inParam, server);
      if r.Ok? {
        retObjProp := r.value;
      }
    }

    method GetClassAttProperty(inParam: seq<string>) returns (r: Result<seq<string>>)
      requires Valid() && |inParam| > 0
      modifies this`retObjAttProp
      ensures r == ClassAttributeAnswer(server, inParam)
      ensures r.Ok? ==> retObjAttProp == r.value
    {
      r := ClassAttProperty(data, idx, inParam, server);
      if r.Ok? {
        retObjAttProp := r.value;
      }
    }

    method GetDevAttProperty(inParam: seq<string>) returns (r: Result<seq<string>>)
      requires Valid() && |inParam| > 0
      modifies this`retObjAttProp
      ensures r == DeviceAttributeAnswer(server, inParam)
      ensures r.Ok? ==> retObjAttProp == r.value
    {
      r := DeviceAttProperty(data, idx, inParam, server);
      if r.Ok? {
        retObjAttProp := r.value;
      }
    }

    method GetClassPipeProperty(inParam: seq<string>) returns (r: Result<seq<string>>)
      requires Valid() && |inParam| > 0
      modifies this`retObjPipeProp
      ensures r == ClassPipeAnswer(server, inParam)
      ensures r.Ok? ==> retObjPipeProp == r.value
    {
      r := ClassPipeProperty(data, idx, inParam, server);
      if r.Ok? {
        retObjPipeProp := r.value;
      }
    }

    method GetDevPipeProperty(inParam: seq<string>) returns (r: Result<seq<string>>)
      requires Valid() && |inParam| > 0
      modifies this`retObjPipeProp
      ensures r == DevicePipeAnswer(server, inParam)
      ensures r.Ok? ==> retObjPipeProp == r.value
    {
      r := DevicePipeProperty(data, idx, inParam, server);
      if r.Ok? {
        retObjPipeProp := r.value;
      }
    }

    method GetDevList(inParam: seq<string>) returns (r: seq<string>)
      requires Valid() && |inParam| > 1
      modifies this`retDevList
      ensures r == retDevList == DeviceListAnswer(server, inParam[1])
    {
      r := DeviceList(data, idx, inParam, server);
      retDevList := r;
    }

    method GetDevicePropertyList(inParam: seq<string>) returns (r: Result<seq<string>>)
      requires Valid() && |inParam| > 1
      modifies this`retPropList
      ensures r == PropertyListAnswer(server, inParam[0], inParam[1])
      ensures r.Ok? ==> retPropList == r.value
    {
      r := CacheImports.GetDevicePropertyList(data, idx, inParam, server);
      if r.Ok? {
        retPropList := r.value;
      }
    }
  }
}
