/** The MIDI mapping table: bindings of a node's parameter to a MIDI channel and controller,
    the first-match lookup behind `findControllerForparameter` and the display text it yields. */
module MidiMappings {
  import opened Wrappers
  import opened Numeric

  /** One `CabbageMidiMapping` entry. */
  datatype MidiMapping = MidiMapping(nodeId: int, parameterIndex: int, channel: int, controller: int)

  predicate Targets(m: MidiMapping, nodeId: int, parameterIndex: int) {
    m.nodeId == nodeId && m.parameterIndex == parameterIndex
  }

  /** The index of the first mapping, in list order, bound to the given node parameter. */
  function FirstMatch(ms: seq<MidiMapping>, nodeId: int, parameterIndex: int): (r: Option<nat>)
    ensures r.Some? ==> r.value < |ms| && Targets(ms[r.value], nodeId, parameterIndex)
    ensures r.Some? ==> forall j :: 0 <= j < r.value ==> !Targets(ms[j], nodeId, parameterIndex)
    ensures r.None? <==> forall j :: 0 <= j < |ms| ==> !Targets(ms[j], nodeId, parameterIndex)
  {
    if ms == [] then None
    else if Targets(ms[0], nodeId, parameterIndex) then Some(0)
    else match FirstMatch(ms[1..], nodeId, parameterIndex)
      case None => None
      case Some(i) => Some(i + 1)
  }

  /** `"CC:" + controller + " Chan:" + channel`. */
  function Label(m: MidiMapping): string {
    "CC:" + IntToString(m.controller) + " Chan:" + IntToString(m.channel)
  }

  /** What `findControllerForparameter` answers: the label of the first matching mapping,
      or the empty string when no mapping targets the parameter. */
  function ControllerFor(ms: seq<MidiMapping>, nodeId: int, parameterIndex: int): (r: string)
    ensures r == "" <==> forall j :: 0 <= j < |ms| ==> !Targets(ms[j], nodeId, parameterIndex)
    ensures r != "" ==> exists i :: 0 <= i < |ms| && Targets(ms[i], nodeId, parameterIndex)
                         && (forall j :: 0 <= j < i ==> !Targets(ms[j], nodeId, parameterIndex))
                         && r == Label(ms[i])
  {
    match FirstMatch(ms, nodeId, parameterIndex)
    case None => ""
    case Some(i) => Label(ms[i])
  }

  /** In a concatenated table the first match lies in the front part when there is one there. */
  lemma {:induction false} FirstMatchAppend(a: seq<MidiMapping>, b: seq<MidiMapping>, nodeId: int, parameterIndex: int)
    ensures FirstMatch(a + b, nodeId, parameterIndex)
         == match FirstMatch(a, nodeId, parameterIndex)
            case Some(i) => Some(i)
            case None =>
              match FirstMatch(b, nodeId, parameterIndex)
              case Some(i) => Some(|a| + i)
              case None => None
  {
    if a == [] {
      assert a + b == b;
    } else {
      assert (a + b)[0] == a[0];
      assert (a + b)[1..] == a[1..] + b;
      FirstMatchAppend(a[1..], b, nodeId, parameterIndex);
    }
  }

  /** Appending mappings never changes an answer the existing list already gives; it only
      supplies one where the existing list has none. */
  lemma ControllerForAppend(a: seq<MidiMapping>, b: seq<MidiMapping>, nodeId: int, parameterIndex: int)
    ensures ControllerFor(a + b, nodeId, parameterIndex)
         == if ControllerFor(a, nodeId, parameterIndex) != "" then ControllerFor(a, nodeId, parameterIndex)
            else ControllerFor(b, nodeId, parameterIndex)
  {
    FirstMatchAppend(a, b, nodeId, parameterIndex);
    match FirstMatch(a, nodeId, parameterIndex)
    case Some(i) =>
      assert (a + b)[i] == a[i];
    case None =>
      match FirstMatch(b, nodeId, parameterIndex)
      case Some(i) =>
        assert (a + b)[|a| + i] == b[i];
      case None =>
  }

  // ---------------------------------------------------------------------------
  // Reading a label back

  function IndexOf(s: string, c: char): (r: Option<nat>)
    ensures r.Some? ==> r.value < |s| && s[r.value] == c && c !in s[..r.value]
    ensures r.None? <==> c !in s
  {
    if s == [] then None
    else if s[0] == c then Some(0)
    else match IndexOf(s[1..], c)
      case None => None
      case Some(i) =>
        assert s[..i + 1] == [s[0]] + s[1..][..i];
        Some(i + 1)
  }

  /** Recovers (controller, channel) from a display label. */
  function ParseLabel(s: string): Option<(int, int)> {
    if |s| < 3 || s[..3] != "CC:" then None
    else
      var rest := s[3..];
      match IndexOf(rest, ' ')
      case None => None
      case Some(k) =>
        var ctrl := rest[..k];
        var tail := rest[k..];
        if |tail| < 6 || tail[..6] != " Chan:" then None
        else
          var chan := tail[6..];
          if IsNumeral(ctrl) && IsNumeral(chan) then Some((ParseInt(ctrl), ParseInt(chan))) else None
  }

  lemma IndexOfAfterPrefix(a: string, b: string, c: char)
    requires c !in a && |b| > 0 && b[0] == c
    ensures IndexOf(a + b, c) == Some(|a|)
  {
    assert (a + b)[|a|] == c;
    assert (a + b)[..|a|] == a;
  }

  /** The label is unambiguous: controller and channel can be read back from it. */
  lemma LabelRoundTrip(m: MidiMapping)
    ensures ParseLabel(Label(m)) == Some((m.controller, m.channel))
  {
    var ctrl := IntToString(m.controller);
    var chan := IntToString(m.channel);
    var s := Label(m);
    assert s == "CC:" + (ctrl + (" Chan:" + chan));
    assert s[..3] == "CC:";
    var rest := s[3..];
    assert rest == ctrl + (" Chan:" + chan);
    IndexOfAfterPrefix(ctrl, " Chan:" + chan, ' ');
    assert rest[..|ctrl|] == ctrl;
    var tail := rest[|ctrl|..];
    assert tail == " Chan:" + chan;
    assert tail[..6] == " Chan:";
    assert tail[6..] == chan;
    IntToStringRoundTrip(m.controller);
    IntToStringRoundTrip(m.channel);
  }
}
