/** The logging framework's common vocabulary and `Log::LoggerBase`, which
    turns one log call into one formatted line. */
module LoggerBase {
  import opened Wrappers
  import Text

  /** `Log::MessageType`. */
  datatype MessageType = Information | Warning | Error | Debug

  /** The arguments of one `ILogger::logMessage` call. */
  datatype LogCall = LogCall(file: string, methodName: string, codeLine: int, kind: MessageType, message: string)

  /** `typeToString`: the three-letter tag written for a message type. */
  function TypeToString(t: MessageType): (r: string)
    ensures |r| == 3
    ensures t == Information <==> r == "INF"
    ensures t == Warning <==> r == "WRN"
    ensures t == Error <==> r == "ERR"
    ensures t == Debug <==> r == "DBG"
  {
    match t
    case Information => "INF"
    case Warning => "WRN"
    case Error => "ERR"
    case Debug => "DBG"
  }

  /** Reads a tag back; the inverse of `TypeToString`. */
  function TypeOfTag(tag: string): (r: Option<MessageType>)
    ensures r.Some? ==> TypeToString(r.value) == tag
  {
    if tag == "INF" then Some(Information)
    else if tag == "WRN" then Some(Warning)
    else if tag == "ERR" then Some(Error)
    else if tag == "DBG" then Some(Debug)
    else None
  }

  /** Every tag reads back as its own type, so no two types share a tag. */
  lemma TagRoundTrip(t: MessageType)
    ensures TypeOfTag(TypeToString(t)) == Some(t)
  {
  }

  /** How many trailing characters of a path without a backslash are kept. */
  const PlainPathWidth: int := 30

  /** The file part of a location: from the last backslash (included) to
      the end, or the last 30 characters of a path without backslashes. */
  function FilePart(file: string): (r: string)
    ensures |r| <= |file|
    ensures r == file[|file| - |r|..]
    ensures '\\' in file ==> |r| >= 1 && r[0] == '\\' && forall j :: 1 <= j < |r| ==> r[j] != '\\'
    ensures '\\' !in file ==> |r| == (if |file| <= PlainPathWidth then |file| else PlainPathWidth)
  {
    var index := Text.LastIndexOf(file, '\\');
    var width := if index < 0 then PlainPathWidth else |file| - index;
    Text.Right(file, width)
  }

  /** `location`: "file:line/method", the file part, a colon, the line
      number in decimal, a slash and the method name. */
  function Location(file: string, methodName: string, codeLine: int): (r: string)
    ensures r == FilePart(file) + ":" + Text.IntToString(codeLine) + "/" + methodName
  {
    FilePart(file) + ":" + Text.IntToString(codeLine) + "/" + methodName
  }

  /** A location starts with the file part and ends with the method name,
      and the line number can be read back from the text between the colon
      after the file part and the slash before the method name. */
  lemma LineNumberIsReadable(file: string, methodName: string, codeLine: int)
    ensures var loc := Location(file, methodName, codeLine);
      && |loc| >= |FilePart(file)| + |methodName| + 3
      && loc[..|FilePart(file)|] == FilePart(file)
      && loc[|FilePart(file)|] == ':'
      && loc[|loc| - |methodName| - 1] == '/'
      && loc[|loc| - |methodName|..] == methodName
      && Text.ParseInt(loc[|FilePart(file)| + 1..|loc| - |methodName| - 1]) == Some(codeLine)
  {
    var part := FilePart(file);
    var num := Text.IntToString(codeLine);
    var withColon := part + ":";
    var withNum := withColon + num;
    var withSlash := withNum + "/";
    var loc := Location(file, methodName, codeLine);
    assert loc == withSlash + methodName;
    assert loc[..|withSlash|] == withSlash;
    assert loc[|withSlash|..] == methodName;
    assert withSlash[..|withNum|] == withNum;
    assert withNum[..|withColon|] == withColon;
    assert withNum[|withColon|..] == num;
    assert loc[..|part|] == withColon[..|part|];
    assert loc[|part|] == withColon[|part|];
    assert loc[|part| + 1..|loc| - |methodName| - 1] == withNum[|withColon|..];
    Text.IntToStringRoundTrip(codeLine);
  }

  /** `makeMessage`: "timestamp [TAG] (location) - message". The timestamp
      is the already formatted current time. */
  function MakeMessage(timestamp: string, call: LogCall): (r: string)
    ensures r == timestamp + " [" + TypeToString(call.kind) + "] ("
               + Location(call.file, call.methodName, call.codeLine) + ") - " + call.message
  {
    timestamp + " [" + TypeToString(call.kind) + "] ("
      + Location(call.file, call.methodName, call.codeLine) + ") - " + call.message
  }

  /** `logMessage`: one call hands exactly one formatted line to the sink. */
  function LogMessage(timestamp: string, call: LogCall): (lines: seq<string>)
    ensures |lines| == 1 && lines[0] == MakeMessage(timestamp, call)
  {
    [MakeMessage(timestamp, call)]
  }

  /** Where the parts of "timestamp [tag] (location) - message" sit once
      they are joined. */
  lemma JoinedParts(timestamp: string, tag: string, loc: string, msg: string)
    requires |tag| == 3
    ensures var line := timestamp + " [" + tag + "] (" + loc + ") - " + msg;
      && |line| == |timestamp| + 12 + |loc| + |msg|
      && line[..|timestamp|] == timestamp
      && line[|timestamp|..|timestamp| + 2] == " ["
      && line[|timestamp| + 2..|timestamp| + 5] == tag
      && line[|timestamp| + 5..|timestamp| + 8] == "] ("
      && line[|timestamp| + 8..|line| - |msg| - 4] == loc
      && line[|line| - |msg| - 4..|line| - |msg|] == ") - "
      && line[|line| - |msg|..] == msg
  {
    var line := timestamp + " [" + tag + "] (" + loc + ") - " + msg;
    assert line == timestamp + (" [" + (tag + ("] (" + (loc + (") - " + msg)))));
  }

  /** The location of a logged line sits between the "] (" after the tag
      and the ") - " before the message, which ends the line; so the file,
      line and method of a line can all be read back. */
  lemma LocationIsReadable(timestamp: string, call: LogCall)
    ensures var line := MakeMessage(timestamp, call);
      && |line| >= |timestamp| + 12 + |call.message|
      && line[|line| - |call.message| - 4..|line| - |call.message|] == ") - "
      && line[|line| - |call.message|..] == call.message
      && line[|timestamp| + 8..|line| - |call.message| - 4]
         == Location(call.file, call.methodName, call.codeLine)
  {
    JoinedParts(timestamp, TypeToString(call.kind), Location(call.file, call.methodName, call.codeLine), call.message);
  }

  /** A logged line starts with the timestamp followed by " [", and the
      type of the line can be read back from the tag that follows. */
  lemma MessageTypeIsReadable(timestamp: string, call: LogCall)
    ensures var line := MakeMessage(timestamp, call);
      && |line| >= |timestamp| + 8
      && line[..|timestamp|] == timestamp
      && line[|timestamp|..|timestamp| + 2] == " ["
      && TypeOfTag(line[|timestamp| + 2..|timestamp| + 5]) == Some(call.kind)
      && line[|timestamp| + 5..|timestamp| + 8] == "] ("
  {
    JoinedParts(timestamp, TypeToString(call.kind), Location(call.file, call.methodName, call.codeLine), call.message);
    TagRoundTrip(call.kind);
  }

  /** Concrete locations: a Windows path keeps its last component with the
      separator; a short plain path is kept whole. */
  lemma LocationExamples()
    ensures FilePart("C:\\src\\leif\\main.cpp") == "\\main.cpp"
    ensures FilePart("leif/main.cpp") == "leif/main.cpp"
  {
    var f := "C:\\src\\leif\\main.cpp";
    assert f[11] == '\\';
    assert Text.LastIndexOf(f, '\\') == 11;
  }
}
