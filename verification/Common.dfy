// Values shared by the connector and the server halves of the durable-output protocol.
module Common {

  datatype Option<+T> = None | Some(value: T)

  datatype Result<+T> = Ok(value: T) | Err(reason: string)

  // A durable output stream is one terminal or agent instance of one session.
  datatype Stream = Stream(sid: string, pid: string)

  // The fields of an output frame that the pipeline looks at. The two routing
  // overrides are private to the spool and never leave it.
  datatype Frame = Frame(
    spoolSid: Option<string>,
    spoolPid: Option<string>,
    agentId: string,
    sid: string,
    pid: string,
    kind: string,
    data: string)
  {
    function Identity(): Stream {
      Stream(if spoolSid.Some? then spoolSid.value else sid,
             if spoolPid.Some? then spoolPid.value else pid)
    }

    // The frame as it is serialized: without the routing overrides.
    function Emitted(): Frame {
      this.(spoolSid := None, spoolPid := None)
    }

    // The stream the server files the frame under.
    function WireStream(): Stream {
      Stream(sid, pid)
    }
  }

  const MAX_DATA_BYTES := 1048576

  function Utf8Size(s: string): nat {
    if s == [] then 0
    else
      (var c := s[0] as int;
       if c < 0x80 then 1 else if c < 0x800 then 2 else if c < 0x10000 then 3 else 4)
      + Utf8Size(s[1..])
  }

  function Lookup(m: map<Stream, nat>, k: Stream): nat {
    if k in m then m[k] else 0
  }
}
