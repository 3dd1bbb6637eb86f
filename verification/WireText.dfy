/** Texts and trees written out by hand, as they go over the wire. */
module WireText {
  import opened Wrappers
  import opened Decimal
  import opened Calendar
  import opened Timestamp
  import opened TimestampLaws
  import opened ClientTime
  import opened Messages
  import opened ClientMessages
  import opened Visitors
  import opened ServerCore

  /** 123456 microseconds past midnight on 8 December 2016. */
  const DECEMBER: nat := 1481155200123456000

  /** Year, month, day, time, microseconds and zone, as the printer writes them. */
  lemma DecemberText()
    ensures InRange(DECEMBER, 0) && EXACT.seconds(IntoMinute(DECEMBER)) >= 0.0
    ensures StampText(EXACT, DECEMBER, 0) == "2016-12-08 00:00:00.123456 +0000"
  {
    DecemberFields();
    ExactSeconds();
    hide *;
    ExactIsSound();
    WholeMicrosText(EXACT, DECEMBER, 0);
    PlainByHand();
  }

  lemma DecemberFields()
    ensures InRange(DECEMBER, 0) && LocalTm(DECEMBER, 0) == Tm(116, 11, 8, 0, 0, 0)
    ensures DECEMBER % 1000 == 0 && DECEMBER / 1000 % 1000000 == 123456
  {
    hide Gmtime, Timegm, Valid;
    DatesByHand();
    assert DECEMBER / NS_PER_SECOND == 1481155200;
  }

  lemma ExactSeconds()
    ensures EXACT.seconds(IntoMinute(DECEMBER)) >= 0.0
  {
    hide IntoMinute;
  }

  lemma TwoDigitsOf(n: nat)
    requires n < 100
    ensures Pad(2, n) == [DigitChar(n / 10), DigitChar(n % 10)]
  {
    assert Pad(1, n / 10) == [DigitChar(n / 10 % 10)] && Pad(2, n) == Pad(1, n / 10) + [DigitChar(n % 10)];
  }

  lemma PadFour(n: nat)
    requires n < 10000
    ensures Pad(4, n) == Pad(2, n / 100) + Pad(2, n % 100)
  {
    TwoDigitsOf(n / 100);
    TwoDigitsOf(n % 100);
    assert n / 10 / 10 == n / 100 && n % 100 / 10 == n / 10 % 10 && n % 100 % 10 == n % 10;
    assert Pad(3, n / 10) == Pad(2, n / 100) + [DigitChar(n / 10 % 10)];
    assert Pad(4, n) == Pad(3, n / 10) + [DigitChar(n % 10)];
  }

  lemma PadSix(n: nat)
    requires n < 1000000
    ensures Pad(6, n) == Pad(4, n / 100) + Pad(2, n % 100)
  {
    TwoDigitsOf(n % 100);
    assert n / 10 / 10 == n / 100 && n % 100 / 10 == n / 10 % 10 && n % 100 % 10 == n % 10;
    assert Pad(5, n / 10) == Pad(4, n / 100) + [DigitChar(n / 10 % 10)];
    assert Pad(6, n) == Pad(5, n / 10) + [DigitChar(n % 10)];
  }

  lemma DigitsByHand()
    ensures Pad(4, 2016) == "2016" && Pad(2, 12) == "12" && Pad(2, 8) == "08" && Pad(2, 0) == "00"
    ensures Pad(6, 123456) == "123456" && Pad(6, 123000) == "123000"
  {
    hide Pad;
    PadFour(2016);
    PadSix(123456);
    PadSix(123000);
    PadFour(1230);
    TwoDigitsOf(30);
    PadFour(1234);
    TwoDigitsOf(20);
    TwoDigitsOf(16);
    TwoDigitsOf(12);
    TwoDigitsOf(34);
    TwoDigitsOf(56);
    TwoDigitsOf(8);
    TwoDigitsOf(0);
  }

  lemma PlainByHand()
    ensures Valid(Tm(116, 11, 8, 0, 0, 0))
    ensures PlainStamp(Tm(116, 11, 8, 0, 0, 0), 123456, 0) == "2016-12-08 00:00:00.123456 +0000"
    ensures PlainStamp(Tm(116, 11, 8, 0, 0, 0), 123000, 0) == "2016-12-08 00:00:00.123000 +0000"
  {
    DigitsByHand();
    hide Pad;
    assert DateText(Tm(116, 11, 8, 0, 0, 0)) == "2016-12-08 00:00:";
    assert ZoneText(0) == " +0000";
    hide DateText, ZoneText;
  }

  const EAST := "1970-01-01 01:30:00.000000 +0130"
  const WEST := "1970-01-01 00:00:00.000000 -0130"

  /** An offset of an hour and a half east is taken off, one to the west is added. */
  lemma ZonesByHand()
    ensures TimePointOf(EXACT, EAST) == Some(0) && TimePointOf(EXACT, WEST) == Some(5400000000000)
  {
    hide *;
    EpochFields();
    EastText();
    WestText();
    ReadsAs(Tm(70, 0, 1, 1, 30, 0), 90, EAST, 0);
    ReadsAs(Tm(70, 0, 1, 0, 0, 0), -90, WEST, 5400000000000);
  }

  lemma ReadsAs(tm: Tm, zone: int, text: string, ns: int)
    requires Valid(tm) && tm.year <= 8099 && tm.sec == 0 && -6000 < zone < 6000 && PlainStamp(tm, 0, zone) == text
    requires (Timegm(tm) - 60 * zone) * 1000000000 == ns
    ensures TimePointOf(EXACT, text) == Some(ns)
  {
    hide TimePointOf, PlainStamp, Valid, Timegm, Sound, KeepsTen;
    ExactIsSound();
    PlainStampReadsBack(EXACT, 1.0, tm, 0, zone);
  }

  lemma EpochFields()
    ensures Valid(Tm(70, 0, 1, 1, 30, 0)) && Timegm(Tm(70, 0, 1, 1, 30, 0)) == 5400
    ensures Valid(Tm(70, 0, 1, 0, 0, 0)) && Timegm(Tm(70, 0, 1, 0, 0, 0)) == 0
  {
  }

  lemma EastText()
    requires Valid(Tm(70, 0, 1, 1, 30, 0))
    ensures PlainStamp(Tm(70, 0, 1, 1, 30, 0), 0, 90) == EAST
  {
    EpochDigits();
    hide Pad, Valid;
    assert DateText(Tm(70, 0, 1, 1, 30, 0)) == "1970-01-01 01:30:";
    assert ZoneText(90) == " +0130";
    hide DateText, ZoneText;
  }

  lemma WestText()
    requires Valid(Tm(70, 0, 1, 0, 0, 0))
    ensures PlainStamp(Tm(70, 0, 1, 0, 0, 0), 0, -90) == WEST
  {
    EpochDigits();
    hide Pad, Valid;
    assert DateText(Tm(70, 0, 1, 0, 0, 0)) == "1970-01-01 00:00:";
    assert ZoneText(-90) == " -0130";
    hide DateText, ZoneText;
  }

  lemma EpochDigits()
    ensures Pad(4, 1970) == "1970" && Pad(2, 1) == "01" && Pad(2, 30) == "30" && Pad(2, 0) == "00"
    ensures Pad(6, 0) == "000000"
  {
    hide Pad;
    PadFour(1970);
    PadSix(0);
    PadFour(0);
    TwoDigitsOf(19);
    TwoDigitsOf(70);
    TwoDigitsOf(1);
    TwoDigitsOf(30);
    TwoDigitsOf(0);
  }

  // ----- trees

  function Tagged(name: string, properties: seq<(string, Tree)>): Tree {
    Node([], [("type", Leaf(name)), ("object", Node([], properties))])
  }

  const DECEMBER_STAMP := Leaf("2016-12-08 00:00:00.123456 +0000")

  /** The tree of the reply to an accepted login at the instant above. */
  lemma LoginReplyTree()
    ensures var reply := Reply([], LoginRequest(7, "bob"), DECEMBER);
            Printable(EXACT, reply) &&
            JsonOf(EXACT, reply) ==
            Tagged("ca.uwo.eng.se3313.lab4.network.response.LoginResponse",
                   [("datetime", DECEMBER_STAMP), ("sender", Leaf("@server")), ("joiningUsername", Leaf("bob"))])
  {
    DecemberText();
    hide StampText, InRange, IntoMinute;
    var reply := Reply([], LoginRequest(7, "bob"), DECEMBER);
    assert Properties(EXACT, reply) ==
           [("datetime", DECEMBER_STAMP), ("sender", Leaf("@server")), ("joiningUsername", Leaf("bob"))];
  }

  lemma MessageReplyTree()
    ensures var reply := Reply([], MessageRequest(7, "bob", "hi"), DECEMBER);
            Printable(EXACT, reply) &&
            JsonOf(EXACT, reply) ==
            Tagged("ca.uwo.eng.se3313.lab4.network.response.MessageResponse",
                   [("datetime", DECEMBER_STAMP), ("sender", Leaf("@server")),
                    ("originator", Leaf("bob")), ("content", Leaf("hi"))])
  {
    DecemberText();
    hide StampText, InRange, IntoMinute;
    var reply := Reply([], MessageRequest(7, "bob", "hi"), DECEMBER);
    assert Properties(EXACT, reply) ==
           [("datetime", DECEMBER_STAMP), ("sender", Leaf("@server")),
            ("originator", Leaf("bob")), ("content", Leaf("hi"))];
  }

  lemma InUseTree()
    ensures var reply := Reply(["bob"], LoginRequest(7, "bob"), DECEMBER);
            Printable(EXACT, reply) &&
            JsonOf(EXACT, reply) ==
            Tagged("ca.uwo.eng.se3313.lab4.network.response.ServerError",
                   [("datetime", DECEMBER_STAMP), ("sender", Leaf("@server")), ("code", Leaf("1")),
                    ("message", Leaf("You dun goofed. Username is in use. (Server Error)")),
                    ("originator", Leaf("@server"))])
  {
    DecemberText();
    CodesByHand();
    hide StampText, InRange, IntoMinute, NatText;
    var reply := Reply(["bob"], LoginRequest(7, "bob"), DECEMBER);
    assert Properties(EXACT, reply) ==
           [("datetime", DECEMBER_STAMP), ("sender", Leaf("@server")), ("code", Leaf("1")),
            ("message", Leaf("You dun goofed. Username is in use. (Server Error)")), ("originator", Leaf("@server"))];
  }

  lemma NoTypeTree()
    ensures var reply := Reply([], LoginResponse(7, "bob", "bob"), DECEMBER);
            Printable(EXACT, reply) &&
            JsonOf(EXACT, reply) ==
            Tagged("ca.uwo.eng.se3313.lab4.network.response.ServerError",
                   [("datetime", DECEMBER_STAMP), ("sender", Leaf("@server")), ("code", Leaf("201")),
                    ("message", Leaf(BAD_TAG_TEXT)), ("originator", Leaf("@unknown"))])
  {
    DecemberText();
    CodesByHand();
    hide StampText, InRange, IntoMinute, NatText;
    var reply := Reply([], LoginResponse(7, "bob", "bob"), DECEMBER);
    assert Properties(EXACT, reply) ==
           [("datetime", DECEMBER_STAMP), ("sender", Leaf("@server")), ("code", Leaf("201")),
            ("message", Leaf(BAD_TAG_TEXT)), ("originator", Leaf("@unknown"))];
  }

  lemma CodesByHand()
    ensures NatText(1) == "1" && NatText(201) == "201"
  {
    assert NatText(2) == "2";
    assert NatText(20) == "20";
  }

  /** A login request as the client writes it; a time that cannot be read counts as the epoch. */
  lemma LoginTreeIsRead(fp: Fp, stamp: string, user: string)
    ensures var t := TimePointOf(fp, stamp);
            RequestOutcome(fp, Tagged("ca.uwo.eng.se3313.lab4.network.request.LoginRequest",
                                      [("datetime", Leaf(stamp)), ("sender", Leaf(user))])) ==
            LoginVisited(LoginRequest(if t.Some? then t.value else 0, user))
  {
    var obj := [("datetime", Leaf(stamp)), ("sender", Leaf(user))];
    FirstIs(obj, "datetime", 0);
    FirstIs(obj, "sender", 1);
    TagIsRead("ca.uwo.eng.se3313.lab4.network.request.LoginRequest", obj);
    hide TimePointOf, IndexOf;
    TypeNamesDiffer();
  }

  lemma MessageTreeIsRead(fp: Fp, stamp: string, user: string, content: string)
    ensures var t := TimePointOf(fp, stamp);
            RequestOutcome(fp, Tagged("ca.uwo.eng.se3313.lab4.network.request.MessageRequest",
                                      [("content", Leaf(content)), ("datetime", Leaf(stamp)), ("sender", Leaf(user))])) ==
            MessageVisited(MessageRequest(if t.Some? then t.value else 0, user, content))
  {
    var obj := [("content", Leaf(content)), ("datetime", Leaf(stamp)), ("sender", Leaf(user))];
    FirstIs(obj, "content", 0);
    FirstIs(obj, "datetime", 1);
    FirstIs(obj, "sender", 2);
    TagIsRead("ca.uwo.eng.se3313.lab4.network.request.MessageRequest", obj);
    hide TimePointOf, IndexOf;
    TypeNamesDiffer();
  }

  lemma TagIsRead(name: string, properties: seq<(string, Tree)>)
    ensures ExtractFrom(Tagged(name, properties)) == Some((name, Node([], properties)))
  {
    var children := Tagged(name, properties).children;
    FirstIs(children, "type", 0);
    FirstIs(children, "object", 1);
  }

  /** The client's message request at that millisecond, in UTC. */
  lemma ClientRequestTree()
    ensures var request := MessageRequest(1481155200123000000, "bob", "hi");
            IsClientRequest(request, 1481155200123, 0) &&
            ClientJson(request, 1481155200123, 0) ==
            Tagged("ca.uwo.eng.se3313.lab4.network.request.MessageRequest",
                   [("content", Leaf("hi")), ("datetime", Leaf("2016-12-08 00:00:00.123000 +0000")), ("sender", Leaf("bob"))])
  {
    ClientStamp();
    hide ClientText, InRange;
    var request := MessageRequest(1481155200123000000, "bob", "hi");
    assert ClientProperties(request, 1481155200123, 0) ==
           [("content", Leaf("hi")), ("datetime", Leaf("2016-12-08 00:00:00.123000 +0000")), ("sender", Leaf("bob"))];
  }

  lemma ClientStamp()
    ensures InRange(1481155200123 * NS_PER_MS, 0)
    ensures ClientText(1481155200123, 0) == "2016-12-08 00:00:00.123000 +0000"
  {
    hide Gmtime, Timegm, Valid, PlainStamp;
    DatesByHand();
    assert 1481155200123 * NS_PER_MS / NS_PER_SECOND == 1481155200;
    PlainByHand();
  }
}
