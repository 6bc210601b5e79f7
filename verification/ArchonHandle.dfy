/** The archon driver in its own form: a handle object whose fields are updated in place, and
    the controller it talks to. Every method is tied to the function that specifies it. */
module ArchonHandle {
  import opened Results
  import opened Text
  import opened ArchonLink
  import Store = ArchonStore
  import Script = ArchonScript
  import Params = ArchonParams

  /** The controller's configuration memory, behind a link that may fail. */
  class Controller {
    const lines: array<string>
    var faults: seq<Fault>

    constructor (memory: array<string>, schedule: seq<Fault>)
      requires memory.Length == LINES
      ensures lines == memory && faults == schedule
    {
      lines := memory;
      faults := schedule;
    }

    ghost predicate Valid()
      reads this
    {
      lines.Length == LINES
    }

    function State(): (u: Unit)
      reads this, lines
      requires Valid()
      ensures |u.lines| == LINES
    {
      Unit(lines[..], faults)
    }

    /** Acts on one request and composes the reply. */
    method Handle(message: string) returns (reply: string)
      requires Valid()
      modifies lines
      ensures (lines[..], reply) == Respond(old(lines[..]), message)
    {
      var text := message[..LineLength(message)];
      if |text| < 3 || text[0] != '>' {
        return "?\n";
      }
      var order, request := text[1..3], text[3..];
      var n := LineNumber(request);
      if StartsWith(request, "WCONFIG") {
        if n.Err? {
          return "?" + order + "\n";
        }
        lines[n.value] := request[11..];
        reply := "<" + order + "\n";
      } else if StartsWith(request, "RCONFIG") {
        reply := if n.Ok? then "<" + order + lines[n.value] + "\n" else "?" + order + "\n";
      } else {
        if request == "CLEARCONFIG" {
          for i := 0 to LINES
            invariant forall j | 0 <= j < i :: lines[j] == ""
          {
            lines[i] := "";
          }
          assert lines[..] == Blank(LINES);
        }
        reply := "<" + order + "\n";
      }
    }

    /** A write to the socket followed by a read up to the end of the line. */
    method Exchange(message: string) returns (r: Result<string>)
      requires Valid()
      modifies this, lines
      ensures (State(), r) == ArchonLink.Exchange(old(State()), message)
    {
      var fault := if faults == [] then Good else faults[0];
      faults := if faults == [] then [] else faults[1..];
      if fault.LostRequest? {
        return Err(LinkError);
      }
      var reply := Handle(message);
      match fault {
        case Good => r := Ok(reply);
        case LostReply => r := Err(LinkError);
        case OtherReply(text) => r := Ok(text);
      }
    }
  }

  class Handle {
    const port: Controller
    var order: nat
    var index: map<string, nat>
    var count: nat
    var params: map<string, int>

    constructor (controller: Controller)
      requires controller.Valid()
      ensures port == controller && Valid()
      ensures State() == Store.Archon(0, map[], 0, map[], controller.State())
    {
      port := controller;
      order, index, count, params := 0, map[], 0, map[];
    }

    ghost predicate Valid()
      reads this, port, port.lines
    {
      port.Valid() && Store.WellFormed(Store.Archon(order, index, count, params, port.State()))
    }

    function State(): Store.Archon
      reads this, port, port.lines
      requires Valid()
    {
      Store.Archon(order, index, count, params, port.State())
    }

    method Cmd(request: string) returns (r: Result<string>)
      requires Valid()
      modifies this, port, port.lines
      ensures Valid() && (State(), r) == Store.Cmd(old(State()), request)
    {
      if order == WRAP {
        order := 0;
      }
      var thisorder := order;
      order := order + 1;
      var reply := port.Exchange(Message(thisorder, request));
      if reply.Err? {
        return reply;
      }
      r := Accept(reply.value, thisorder);
    }

    method WriteConfigLine(line: string, num: int) returns (r: Result<nat>)
      requires Valid()
      modifies this, port, port.lines
      ensures Valid() && (State(), r) == Store.WriteConfigLine(old(State()), line, num)
    {
      if count >= Store.MAX_LINES || |line| >= Store.MAX_LINES {
        return Err(DeviceError);
      }
      var n: int := num;
      if num < 0 {
        n := count;
        count := count + 1;
      } else if num > count {
        return Err(LogicError);
      }
      var reply := Cmd("WCONFIG" + Hex(n, 4) + line);
      r := if reply.Err? then Err(reply.error) else Ok(n);
    }

    method ReadConfigLine(num: nat, overrideExisting: bool) returns (r: Result<string>)
      requires Valid()
      modifies this, port, port.lines
      ensures Valid() && (State(), r) == Store.ReadConfigLine(old(State()), num, overrideExisting)
    {
      if num > count && !overrideExisting {
        return Err(LogicError);
      }
      r := Cmd("RCONFIG" + Hex(num, 4));
    }

    method ReadKeyValue(key: string) returns (r: Result<string>)
      requires Valid()
      modifies this, port, port.lines
      ensures Valid() && (State(), r) == Store.ReadKeyValue(old(State()), key)
    {
      if key !in index {
        return Err(NotRegistered);
      }
      var line := ReadConfigLine(index[key], false);
      r := if line.Err? then line else AfterEquals(line.value);
    }

    method WriteKeyValue(key: string, val: string) returns (r: Result<()>)
      requires Valid()
      modifies this, port, port.lines
      ensures Valid() && (State(), r) == Store.WriteKeyValue(old(State()), key, val)
    {
      var line := key + "=" + val;
      if key !in index {
        var n := WriteConfigLine(line, -1);
        if n.Err? {
          return Err(n.error);
        }
        index := index[key := n.value];
      } else {
        var n := WriteConfigLine(line, index[key]);
        if n.Err? {
          return Err(n.error);
        }
      }
      r := Ok(());
    }

    method ClearConfig() returns (r: Result<()>)
      requires Valid()
      modifies this, port, port.lines
      ensures Valid() && (State(), r) == Store.ClearConfig(old(State()))
    {
      var reply := Cmd("CLEARCONFIG");
      if reply.Err? {
        return Err(reply.error);
      }
      index, count, params := map[], 0, map[];
      ghost var cleared := State();
      var i := 0;
      while i < |Store.FRESH|
        invariant Valid() && 0 <= i <= |Store.FRESH|
        invariant Store.WriteZeros(cleared, Store.FRESH) == Store.WriteZeros(State(), Store.FRESH[i..])
      {
        assert Store.FRESH[i..][1..] == Store.FRESH[i + 1..];
        r := WriteKeyValue(Store.FRESH[i], "0");
        if r.Err? {
          return;
        }
        i := i + 1;
      }
      r := Ok(());
    }

    method GetParameters() returns (r: Result<int>)
      requires Valid()
      modifies this, port, port.lines
      ensures Valid() && (State(), r) == Params.GetParameters(old(State()))
    {
      var text := ReadKeyValue("PARAMETERS");
      r := if text.Err? then Err(text.error) else Stoi(text.value);
    }

    method SetParam(name: string, val: nat) returns (r: Result<()>)
      requires Valid()
      modifies this, port, port.lines
      ensures Valid() && (State(), r) == Params.SetParam(old(State()), name, val)
    {
      var confnum: int;
      if name in params {
        confnum := params[name];
      } else {
        var n := GetParameters();
        if n.Err? {
          return Err(n.error);
        }
        confnum := n.value;
        params := params[name := confnum];
        r := WriteKeyValue("PARAMETERS", DecInt(confnum + 1));
        if r.Err? {
          return;
        }
      }
      r := WriteKeyValue(Params.SlotKey(confnum), Params.ParamLine(name, val));
    }

    method GetParam(name: string) returns (r: Result<nat>)
      requires Valid()
      modifies this, port, port.lines
      ensures Valid() && (State(), r) == Params.GetParam(old(State()), name)
    {
      if name !in params {
        return Err(DeviceError);
      }
      var line := ReadKeyValue(Params.SlotKey(params[name]));
      r := if line.Err? then Err(line.error) else Params.ParamValue(line.value);
    }

    method LoadTimingScript(script: string) returns (r: Result<()>)
      requires Valid()
      modifies this, port, port.lines
      ensures Valid() && (State(), r) == Script.LoadTimingScript(old(State()), script)
    {
      ghost var ls := Lines(script);
      var rest, i := script, 0;
      while rest != ""
        invariant Valid() && 0 <= i <= |ls| && ls[i..] == Lines(rest)
        invariant Script.LoadFrom(old(State()), ls, 0) == Script.LoadFrom(State(), ls, i)
        decreases |rest|
      {
        var n := LineLength(rest);
        var line := rest[..n];
        assert ls[i] == line && ls[i + 1..] == ls[i..][1..];
        rest := if n < |rest| then rest[n + 1..] else "";
        r := WriteKeyValue(Script.LineKey(i), line);
        if r.Err? {
          return;
        }
        i := i + 1;
      }
      r := WriteKeyValue("LINES", Dec(i));
    }
  }
}
