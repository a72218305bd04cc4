/** The controller's line protocol and what the bridge does with each line it reads
    (the per-line dispatch of `read_from_arduino`). */
module Telemetry {
  import opened Text

  /** The `status` field of a `connection_status` event. */
  datatype Status = Connecting | Connected | Disconnected
  {
    /** The text sent to the web client. */
    function Name(): string
    {
      match this
      case Connecting => "connecting"
      case Connected => "connected"
      case Disconnected => "disconnected"
    }
  }

  /** The three statuses go out as three different texts, so a client can tell them apart. */
  lemma NamesDistinct(a: Status, b: Status)
    requires a.Name() == b.Name()
    ensures a == b
  {
    assert a.Name()[|a.Name()| - 3] == b.Name()[|b.Name()| - 3];
  }

  /** A message the bridge sends to one web client: `{type: connection_status, status,
      message}` or `{type: robot_status, data}`. */
  datatype Event = ConnectionStatus(status: Status, message: string) | RobotStatus(data: string)

  /** What one line read from the controller makes the reading client's task do. */
  datatype LineAction =
    | Skip                                          // blank line: nothing
    | Acknowledge(line: string)                     // `ack:`: logged only
    | Report(line: string)                          // `pos:`: robot_status to this client
    | Announce(status: Status, message: string)     // `status:`: broadcast to every client
    | Unrecognised(line: string)                    // anything else: nothing

  const AckPrefix := "ack:"
  const PosPrefix := "pos:"
  const StatusPrefix := "status:"

  /** The controller reports it is ready: "pronto" in the lower-cased message. */
  predicate IsReady(message: string)
  {
    Contains(Lower(message), "pronto")
  }

  /** The six characters of `message` from `i` on spell "pronto" in some mix of ASCII cases. */
  predicate ProntoAt(message: string, i: int)
  {
    0 <= i <= |message| - 6 && Lower(message[i..i + 6]) == "pronto"
  }

  /** A message is a ready message exactly when "pronto", in any mix of ASCII cases,
      occurs somewhere in it. */
  lemma ReadyIff(message: string)
    ensures IsReady(message) <==> exists i :: ProntoAt(message, i)
  {
    var low := Lower(message);
    ContainsAt(low, "pronto");
    forall i | 0 <= i <= |message| - 6
      ensures OccursAt(low, "pronto", i) <==> ProntoAt(message, i)
    {
      LowerSlice(message, i, i + 6);
    }
    if IsReady(message) {
      var i :| OccursAt(low, "pronto", i);
      assert ProntoAt(message, i);
    }
    if exists i :: ProntoAt(message, i) {
      var i :| ProntoAt(message, i);
      assert OccursAt(low, "pronto", i);
    }
  }

  /** A message holding any spelling `w` of "pronto" ("pronto", "Pronto", "PRONTO", ...)
      is a ready message. */
  lemma ReadyWhenPronto(message: string, w: string)
    requires Contains(message, w) && Lower(w) == "pronto"
    ensures IsReady(message)
  {
    ContainsAt(message, w);
    var i :| OccursAt(message, w, i);
    assert message[i..i + 6] == w;
    assert ProntoAt(message, i);
    ReadyIff(message);
  }

  /** A message with no letter p in either case is never a ready message. */
  lemma NotReadyWithoutP(message: string)
    requires 'p' !in message && 'P' !in message
    ensures !IsReady(message)
  {
    var low := Lower(message);
    forall k | 0 <= k < |low|
      ensures low[k] != 'p'
    {
      assert message[k] in message;
    }
    AbsentChar(low, "pronto", 0);
  }

  /** The broadcast a status message turns into. */
  function StatusAnnouncement(message: string): (a: LineAction)
  {
    if IsReady(message) then Announce(Connected, "\U{2705} " + message)
    else Announce(Connecting, "Arduino: " + message)
  }

  /** Classify a stripped line by testing the prefixes in the order `ack:`, `pos:`,
      `status:`; a status message is the line with every "status:" removed, stripped. */
  function Classify(line: string): (a: LineAction)
  {
    if line == [] then Skip
    else if StartsWith(line, AckPrefix) then Acknowledge(line)
    else if StartsWith(line, PosPrefix) then Report(line)
    else if StartsWith(line, StatusPrefix) then StatusAnnouncement(Strip(RemoveAll(line, StatusPrefix)))
    else Unrecognised(line)
  }

  /** What is done with one decoded line: it is stripped, then classified. */
  function Dispatch(raw: string): (a: LineAction)
  {
    Classify(Strip(raw))
  }

  /** White space around a line never changes what is done with it. */
  lemma DispatchIgnoresPadding(p: string, raw: string, q: string)
    requires AllSpace(p) && AllSpace(q)
    ensures Dispatch(p + raw + q) == Dispatch(raw)
  {
    StripIgnoresPadding(p, raw, q);
  }

  /** Every line falls into exactly one case, decided by its stripped text; only a
      `pos:` line yields output for the reading client alone, and it carries the
      whole stripped line, prefix included. */
  lemma DispatchCases(raw: string)
    ensures var line := Strip(raw);
      && (Dispatch(raw) == Skip <==> line == [])
      && (Dispatch(raw).Acknowledge? <==> StartsWith(line, AckPrefix))
      && (Dispatch(raw).Report? <==> StartsWith(line, PosPrefix))
      && (Dispatch(raw).Announce? <==> StartsWith(line, StatusPrefix))
      && (Dispatch(raw).Report? ==> Dispatch(raw).line == line)
      && (Dispatch(raw).Unrecognised? <==>
            line != [] && !StartsWith(line, AckPrefix) && !StartsWith(line, PosPrefix)
            && !StartsWith(line, StatusPrefix))
  {
    ClassifyCases(Strip(raw));
  }

  /** The case analysis of `DispatchCases` on an already stripped line. */
  lemma ClassifyCases(line: string)
    ensures && (Classify(line) == Skip <==> line == [])
      && (Classify(line).Acknowledge? <==> StartsWith(line, AckPrefix))
      && (Classify(line).Report? <==> StartsWith(line, PosPrefix))
      && (Classify(line).Announce? <==> StartsWith(line, StatusPrefix))
      && (Classify(line).Report? ==> Classify(line).line == line)
      && (Classify(line).Unrecognised? <==>
            line != [] && !StartsWith(line, AckPrefix) && !StartsWith(line, PosPrefix)
            && !StartsWith(line, StatusPrefix))
  {
    PrefixesExclusive(line);
  }

  /** A line starts with at most one of the three prefixes, and a line that starts
      with one is not blank. */
  lemma PrefixesExclusive(line: string)
    ensures StartsWith(line, AckPrefix) ==> line != [] && line[0] == 'a'
    ensures StartsWith(line, PosPrefix) ==> line != [] && line[0] == 'p'
    ensures StartsWith(line, StatusPrefix) ==> line != [] && line[0] == 's'
  {
    if StartsWith(line, AckPrefix) { assert line[0] == line[..4][0]; }
    if StartsWith(line, PosPrefix) { assert line[0] == line[..4][0]; }
    if StartsWith(line, StatusPrefix) { assert line[0] == line[..7][0]; }
  }

  /** A position report, with any white space around it, is forwarded verbatim. */
  lemma PositionForwardedVerbatim(p: string, payload: string, q: string)
    requires AllSpace(p) && AllSpace(q)
    requires payload == [] || !IsSpace(payload[|payload| - 1])
    ensures Dispatch(p + (PosPrefix + payload) + q) == Report(PosPrefix + payload)
  {
    var line := PosPrefix + payload;
    assert line[0] == 'p';
    assert Trimmed(line);
    StripUnique(p, line, q);
    PositionClassified(payload);
  }

  lemma PositionClassified(payload: string)
    ensures Classify(PosPrefix + payload) == Report(PosPrefix + payload)
  {
    var line := PosPrefix + payload;
    assert line[..|PosPrefix|] == PosPrefix;
    assert line[0] == 'p';
    assert !StartsWith(line, AckPrefix) by { PrefixesExclusive(line); }
  }

  /** A status line `status:<sep><message>` announces exactly its message, with
      `Connected` when the message says "pronto" in any ASCII case and `Connecting`
      otherwise. */
  lemma StatusAnnounced(sep: string, message: string)
    requires AllSpace(sep) && Trimmed(message)
    requires !Contains(message, StatusPrefix)
    ensures Dispatch(StatusPrefix + sep + message) ==
      if IsReady(message) then Announce(Connected, "\U{2705} " + message)
      else Announce(Connecting, "Arduino: " + message)
  {
    if message == [] {
      BlankStatus(sep);
    } else {
      StatusMessageAnnounced(sep, message);
    }
  }

  /** The case of `StatusAnnounced` with a non-empty message. */
  lemma StatusMessageAnnounced(sep: string, message: string)
    requires AllSpace(sep) && Trimmed(message) && message != []
    requires !Contains(message, StatusPrefix)
    ensures Dispatch(StatusPrefix + sep + message) == StatusAnnouncement(message)
  {
    var line := StatusPrefix + (sep + message);
    assert StatusPrefix + sep + message == line;
    StatusLineKept(sep + message);
    StatusLineClassified(sep + message);
    StatusMessageExtracted(sep, message);
  }

  /** `status:` followed only by white space announces the empty message. */
  lemma BlankStatus(sep: string)
    requires AllSpace(sep)
    ensures Dispatch(StatusPrefix + sep + []) == StatusAnnouncement([])
  {
    calc {
      Dispatch(StatusPrefix + sep + []);
    == { assert StatusPrefix + sep + [] == [] + StatusPrefix + sep; }
      Dispatch([] + StatusPrefix + sep);
    == { DispatchIgnoresPadding([], StatusPrefix, sep); }
      Dispatch(StatusPrefix);
    == { SampleBarePrefix(); }
      Announce(Connecting, "Arduino: ");
    == { EmptyMessage(); }
      StatusAnnouncement(Strip(RemoveAll([], StatusPrefix)));
    == { assert Strip(RemoveAll([], StatusPrefix)) == []; }
      StatusAnnouncement([]);
    }
  }

  /** Any status line whose last character is not white space: the message announced is
      what follows the prefix with every further "status:" removed, stripped. */
  lemma StatusLine(body: string)
    requires body == [] || !IsSpace(body[|body| - 1])
    ensures Dispatch(StatusPrefix + body) == StatusAnnouncement(Strip(RemoveAll(body, StatusPrefix)))
  {
    var line := StatusPrefix + body;
    calc {
      Dispatch(line);
    == { StatusLineKept(body); }
      Classify(line);
    == { StatusLineClassified(body); }
      StatusAnnouncement(Strip(RemoveAll(line, StatusPrefix)));
    == { RemoveLeading(StatusPrefix, body); }
      StatusAnnouncement(Strip(RemoveAll(body, StatusPrefix)));
    }
  }

  lemma StatusLineKept(body: string)
    requires body == [] || !IsSpace(body[|body| - 1])
    ensures Strip(StatusPrefix + body) == StatusPrefix + body
  {
    var line := StatusPrefix + body;
    assert line[0] == 's';
    assert line[|line| - 1] == if body == [] then ':' else body[|body| - 1];
    StripUnique([], line, []);
    assert [] + line + [] == line;
  }

  lemma StatusLineClassified(body: string)
    ensures Classify(StatusPrefix + body) ==
      StatusAnnouncement(Strip(RemoveAll(StatusPrefix + body, StatusPrefix)))
  {
    var line := StatusPrefix + body;
    assert line[0] == 's';
    assert StartsWith(line, StatusPrefix) by {
      assert line[..|StatusPrefix|] == StatusPrefix;
    }
    assert !StartsWith(line, AckPrefix) by {
      assert line[..|AckPrefix|][0] != AckPrefix[0];
    }
    assert !StartsWith(line, PosPrefix) by {
      assert line[..|PosPrefix|][0] != PosPrefix[0];
    }
  }

  lemma StatusMessageExtracted(sep: string, message: string)
    requires AllSpace(sep) && Trimmed(message) && !Contains(message, StatusPrefix)
    ensures Strip(RemoveAll(StatusPrefix + (sep + message), StatusPrefix)) == message
  {
    var body := sep + message;
    RemoveLeading(StatusPrefix, body);
    ContainsSkipsSpace(sep, message, StatusPrefix);
    RemoveAllAbsent(body, StatusPrefix);
    StripUnique(sep, message, []);
    assert sep + message + [] == body;
  }

  lemma RemoveLeading(pat: string, t: string)
    requires pat != []
    ensures RemoveAll(pat + t, pat) == RemoveAll(t, pat)
  {
    assert (pat + t)[..|pat|] == pat;
    assert (pat + t)[|pat|..] == t;
  }

  /** A line whose first character differs from a prefix's does not start with it. */
  lemma FirstCharDiffers(s: string, prefix: string)
    requires s != [] && prefix != [] && s[0] != prefix[0]
    ensures !StartsWith(s, prefix)
  {
  }

  /** A line that is its own strip is classified as it stands. */
  lemma DispatchTrimmed(line: string)
    requires Trimmed(line)
    ensures Dispatch(line) == Classify(line)
  {
    StripUnique([], line, []);
    assert [] + line + [] == line;
  }

  /** The sample lines of the protocol: a ready status, a calibration status, a
      position report and noise. */
  lemma SampleLines()
    ensures Dispatch("status: Sistema pronto") == Announce(Connected, "\U{2705} Sistema pronto")
    ensures Dispatch("status: Calibrando") == Announce(Connecting, "Arduino: Calibrando")
    ensures Dispatch("pos:120,45") == Report("pos:120,45")
    ensures Dispatch("noise") == Unrecognised("noise")
  {
    SampleReady();
    SampleCalibrating();
    SamplePosition();
    SampleNoise();
  }

  lemma SampleReady()
    ensures Dispatch("status: Sistema pronto") == Announce(Connected, "\U{2705} Sistema pronto")
  {
    SampleReadyFacts();
    StatusAnnounced(" ", "Sistema pronto");
  }

  lemma SampleReadyFacts()
    ensures AllSpace(" ") && Trimmed("Sistema pronto") && "Sistema pronto" != []
    ensures !Contains("Sistema pronto", StatusPrefix) && IsReady("Sistema pronto")
    ensures StatusPrefix + " " + "Sistema pronto" == "status: Sistema pronto"
    ensures "\U{2705} " + "Sistema pronto" == "\U{2705} Sistema pronto"
  {
    SampleShape("Sistema pronto");
    SampleReadyText();
    NoColonNoPrefix("Sistema pronto");
    SampleReadyIsReady();
  }

  lemma SampleReadyText()
    ensures StatusPrefix + " " + "Sistema pronto" == "status: Sistema pronto"
    ensures "\U{2705} " + "Sistema pronto" == "\U{2705} Sistema pronto"
  {
  }

  lemma SampleCalibratingText()
    ensures StatusPrefix + " " + "Calibrando" == "status: Calibrando"
    ensures "Arduino: " + "Calibrando" == "Arduino: Calibrando"
  {
  }

  lemma SampleShape(message: string)
    requires message == "Sistema pronto" || message == "Calibrando"
    ensures AllSpace(" ") && Trimmed(message) && message != []
  {
  }

  /** A message without a colon holds no "status:" to remove. */
  lemma NoColonNoPrefix(message: string)
    requires ':' !in message
    ensures !Contains(message, StatusPrefix)
  {
    AbsentChar(message, StatusPrefix, 6);
  }

  lemma SampleReadyIsReady()
    ensures IsReady("Sistema pronto")
  {
    assert OccursAt("Sistema pronto", "pronto", 8);
    ContainsAt("Sistema pronto", "pronto");
    ProntoSpellings();
    ReadyWhenPronto("Sistema pronto", "pronto");
  }

  lemma ProntoSpellings()
    ensures Lower("pronto") == "pronto" && Lower("PRONTO") == "pronto"
  {
  }

  /** The ready word in capitals is still recognised. */
  lemma SampleShouting()
    ensures IsReady("Sistema PRONTO")
  {
    assert OccursAt("Sistema PRONTO", "PRONTO", 8);
    ContainsAt("Sistema PRONTO", "PRONTO");
    ProntoSpellings();
    ReadyWhenPronto("Sistema PRONTO", "PRONTO");
  }

  /** Every "status:" in the line is removed, not only the leading one, and a bare
      prefix announces an empty message. */
  lemma SampleRepeatedPrefix()
    ensures Dispatch("status:a status:b") == Announce(Connecting, "Arduino: a b")
    ensures Dispatch("status:") == Announce(Connecting, "Arduino: ")
  {
    SampleTwoPrefixes();
    SampleBarePrefix();
  }

  lemma SampleTwoPrefixes()
    ensures Dispatch("status:a status:b") == Announce(Connecting, "Arduino: a b")
  {
    SampleTwoPrefixesText();
    StatusLine("a status:b");
    SampleTwoPrefixesRemoved();
    SampleTwoPrefixesStripped();
    NotReadyWithoutP("a b");
  }

  lemma SampleTwoPrefixesText()
    ensures StatusPrefix + "a status:b" == "status:a status:b"
    ensures "a status:b" == "a " + (StatusPrefix + "b")
    ensures "a " + "b" == "a b" && "Arduino: " + "a b" == "Arduino: a b"
    ensures !IsSpace("a status:b"[|"a status:b"| - 1])
    ensures 'p' !in "a b" && 'P' !in "a b"
  {
  }

  lemma SampleTwoPrefixesRemoved()
    ensures RemoveAll("a status:b", StatusPrefix) == "a b"
  {
    SampleTwoPrefixesText();
    var t := StatusPrefix + "b";
    forall i | 0 <= i < |"a "|
      ensures !StartsWith(("a " + t)[i..], StatusPrefix)
    {
      assert ("a " + t)[i..][0] == "a "[i];
    }
    RemoveAllKeeps("a ", t, StatusPrefix);
    RemoveLeading(StatusPrefix, "b");
    NoColonNoPrefix("b");
    RemoveAllAbsent("b", StatusPrefix);
  }

  lemma SampleTwoPrefixesStripped()
    ensures Strip("a b") == "a b"
  {
    var m := "a b";
    assert Trimmed(m);
    StripUnique([], m, []);
    assert [] + m + [] == m;
  }

  lemma SampleBarePrefix()
    ensures Dispatch("status:") == Announce(Connecting, "Arduino: ")
  {
    calc {
      Dispatch("status:");
    == { SampleBarePrefixText(); }
      Dispatch(StatusPrefix + []);
    == { StatusLine([]); }
      StatusAnnouncement(Strip(RemoveAll([], StatusPrefix)));
    == { EmptyMessage(); }
      Announce(Connecting, "Arduino: ");
    }
  }

  lemma SampleBarePrefixText()
    ensures StatusPrefix + [] == "status:"
  {
  }

  /** Nothing left after the prefix: the message is empty and not a ready message. */
  lemma EmptyMessage()
    ensures StatusAnnouncement(Strip(RemoveAll([], StatusPrefix))) == Announce(Connecting, "Arduino: ")
  {
    assert Strip(RemoveAll([], StatusPrefix)) == [];
    NotReadyWithoutP([]);
    assert "Arduino: " + [] == "Arduino: ";
  }

  lemma SampleCalibrating()
    ensures Dispatch("status: Calibrando") == Announce(Connecting, "Arduino: Calibrando")
  {
    SampleCalibratingFacts();
    StatusAnnounced(" ", "Calibrando");
  }

  lemma SampleCalibratingFacts()
    ensures AllSpace(" ") && Trimmed("Calibrando") && "Calibrando" != []
    ensures !Contains("Calibrando", StatusPrefix) && !IsReady("Calibrando")
    ensures StatusPrefix + " " + "Calibrando" == "status: Calibrando"
    ensures "Arduino: " + "Calibrando" == "Arduino: Calibrando"
  {
    SampleShape("Calibrando");
    SampleCalibratingText();
    NoColonNoPrefix("Calibrando");
    SampleCalibratingNotReady();
  }

  lemma SampleCalibratingNotReady()
    ensures !IsReady("Calibrando")
  {
    NotReadyWithoutP("Calibrando");
  }

  lemma SamplePosition()
    ensures Dispatch("pos:120,45") == Report("pos:120,45")
  {
    SamplePositionText();
    DispatchTrimmed("pos:120,45");
    PositionClassified("120,45");
  }

  lemma SamplePositionText()
    ensures PosPrefix + "120,45" == "pos:120,45" && Trimmed("pos:120,45")
  {
  }

  lemma SampleNoiseClassified()
    ensures Classify("noise") == Unrecognised("noise")
  {
    FirstCharDiffers("noise", AckPrefix);
    FirstCharDiffers("noise", PosPrefix);
    FirstCharDiffers("noise", StatusPrefix);
  }

  lemma SampleNoise()
    ensures Dispatch("noise") == Unrecognised("noise")
  {
    SampleNoiseClassified();
    DispatchTrimmed("noise");
  }
}
