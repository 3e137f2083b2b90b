/** Worked inputs for the pipeline's behaviours, each built from the general lemmas. */
module ConfigExamples {
  import opened Wrappers
  import opened JsString
  import opened JsNumber
  import opened OAuthClients
  import opened Config

  lemma DecimalValueOf3000()
    ensures AllDigits("3000") && DecimalValue("3000") == 3000
  {
    assert "3000"[..3] == "300" && "300"[..2] == "30" && "30"[..1] == "3" && "3"[..0] == "";
  }

  /** `PORT="3000"` is port 3000. */
  lemma PortThreeThousand()
    ensures ParseInt("3000") == Some(3000)
  {
    DecimalValueOf3000();
    assert "3000" == "" + "" + ("3000" + "");
    ParseIntAccepts("", "", "3000", "", 3000);
  }

  /** `parseInt` stops at the first non-digit: `"3000abc"` is 3000. */
  lemma PortWithTrailingText()
    ensures ParseInt("3000abc") == Some(3000)
  {
    DecimalValueOf3000();
    assert "3000abc" == "" + "" + ("3000" + "abc");
    ParseIntAccepts("", "", "3000", "abc", 3000);
  }

  /** `PORT="abc"` is NaN, which the pipeline rejects. */
  lemma PortWithoutDigits()
    ensures ParseInt("abc") == None
    ensures ResolvePort(Some("abc")) == Failure(PortNotInteger)
  {
    assert "abc" == "" + "" + "abc";
    ParseIntRejects("", "", "abc");
  }

  /** Trimming and dropping blanks keeps a field that trims to something non-empty. */
  lemma {:induction false} KeepField(p: string, rest: seq<string>, t: string)
    requires Trim(p) == t && t != ""
    ensures NonEmptyTrimmed([p] + rest) == [t] + NonEmptyTrimmed(rest)
  {
    assert ([p] + rest)[1..] == rest;
  }

  /** Trimming and dropping blanks drops a field that trims to nothing. */
  lemma {:induction false} DropField(p: string, rest: seq<string>)
    requires Trim(p) == ""
    ensures NonEmptyTrimmed([p] + rest) == NonEmptyTrimmed(rest)
  {
    assert ([p] + rest)[1..] == rest;
  }

  /** Two padded fields and a blank one give the two trimmed fields. */
  lemma {:induction false} PaddedFields(x: string, y: string, z: string, tx: string, ty: string)
    requires Trim(x) == tx && Trim(y) == ty && Trim(z) == "" && tx != "" && ty != ""
    ensures NonEmptyTrimmed([x] + ([y] + [z])) == [tx] + [ty]
  {
    var e: seq<string> := [];
    DropField(z, e);
    assert [z] + e == [z];
    KeepField(y, [z], ty);
    KeepField(x, [y] + [z], tx);
  }

  /** The text ` a , b ,` for any two audience characters `a` and `b`. */
  function PaddedPair(a: char, b: char): string
  {
    [' ', a, ' ', ',', ' ', b, ' ', ',']
  }

  lemma AudienceFieldsSplit(a: char, b: char)
    requires a != ',' && b != ','
    ensures Split(PaddedPair(a, b), ',') == [[' ', a, ' '], [' ', b, ' '], []]
  {
    var parts := [[' ', a, ' '], [' ', b, ' '], []];
    var tail: seq<string> := [[' ', b, ' '], []];
    assert parts[1..] == tail && tail[1..] == [[]];
    assert Join(tail, ',') == [' ', b, ' '] + [','] + [];
    assert Join(parts, ',') == [' ', a, ' '] + [','] + Join(tail, ',');
    assert Join(parts, ',') == PaddedPair(a, b);
    SplitJoin(parts, ',');
  }

  lemma TrimPaddedLetter(c: char)
    requires !IsWhiteSpace(c)
    ensures Trim([' ', c, ' ']) == [c]
  {
    assert " " + [c] + " " == [' ', c, ' '];
    TrimStripsSurroundingWhiteSpace(" ", [c], " ");
  }

  lemma AudienceFieldsTrimmed(a: char, b: char)
    requires !IsWhiteSpace(a) && !IsWhiteSpace(b)
    ensures NonEmptyTrimmed([[' ', a, ' '], [' ', b, ' '], []]) == [[a], [b]]
  {
    TrimPaddedLetter(a);
    TrimPaddedLetter(b);
    assert Trim([]) == [];
    PaddedFields([' ', a, ' '], [' ', b, ' '], [], [a], [b]);
    assert [[' ', a, ' '], [' ', b, ' '], []] == [[' ', a, ' ']] + ([[' ', b, ' ']] + [[]]);
  }

  /**
    `JWT_AUDIENCES=" a , b ,"` lists the audiences `a` and `b`, in that order:
    the blanks around each field and the empty last field are dropped.
   */
  lemma AudienceExample(a: char, b: char, resourceServerUrl: Option<string>, port: int)
    requires !IsWhiteSpace(a) && !IsWhiteSpace(b) && a != ',' && b != ','
    ensures Audiences(Some(PaddedPair(a, b)), resourceServerUrl, port) == [[a], [b]]
  {
    AudienceFieldsSplit(a, b);
    AudienceFieldsTrimmed(a, b);
    assert ListedAudiences(Some(PaddedPair(a, b))) == [[a], [b]];
  }

  /** The two clients of a worked example allow-list. */
  function ExampleClients(): seq<Client>
  {
    [Client("app1", ["https://a.test/cb", "https://b.test/cb"]), Client("app2", ["https://c.test/cb"])]
  }

  lemma FirstClientWellFormed()
    ensures WellFormedClient("app1", ["https://a.test/cb", "https://b.test/cb"])
  {
    UriField("https://a.test/cb");
    UriField("https://b.test/cb");
    assert IsField("app1");
  }

  lemma SecondClientWellFormed()
    ensures WellFormedClient("app2", ["https://c.test/cb"])
  {
    UriField("https://c.test/cb");
    assert IsField("app2");
  }

  /** A URI made of letters, `:`, `/` and `.` is a field of the grammar. */
  lemma UriField(u: string)
    requires |u| > 0 && forall k :: 0 <= k < |u| ==> 'a' <= u[k] <= 'z' || u[k] in ":/."
    ensures IsField(u) && ',' !in u
  {
  }

  lemma ExampleClientsWellFormed()
    ensures AllWellFormed(ExampleClients()) && DistinctIds(ExampleClients())
  {
    FirstClientWellFormed();
    SecondClientWellFormed();
  }

  lemma FirstEntryText()
    ensures FormatEntry(ExampleClients()[0]) == "app1" + "|" + ("https://a.test/cb" + "," + "https://b.test/cb")
  {
    JoinPair("https://a.test/cb", "https://b.test/cb", ',');
  }

  lemma ExampleClientsText()
    ensures FormatClients(ExampleClients())
            == "app1" + "|" + ("https://a.test/cb" + "," + "https://b.test/cb") + ";" + ("app2" + "|" + "https://c.test/cb")
  {
    var cs := ExampleClients();
    assert FormatEntries(cs) == [FormatEntry(cs[0]), FormatEntry(cs[1])];
    JoinPair(FormatEntry(cs[0]), FormatEntry(cs[1]), ';');
    FirstEntryText();
    assert FormatEntry(cs[1]) == "app2" + "|" + "https://c.test/cb";
  }

  lemma JoinPair(x: string, y: string, sep: char)
    ensures Join([x, y], sep) == x + [sep] + y
  {
    assert [x, y][1..] == [y];
  }

  lemma ExampleClientIds()
    ensures ClientIds(ExampleClients()) == ["app1", "app2"]
  {
    assert ClientIds(ExampleClients()[1..][1..]) == [];
  }

  /**
    The allow-list written from the example clients, which `ExampleClientsText`
    shows is `app1|https://a.test/cb,https://b.test/cb;app2|https://c.test/cb`,
    allows `app1` then `app2`, each with its own URIs.
   */
  lemma TwoClientExample(v: string)
    requires v == FormatClients(ExampleClients())
    ensures var r := AllowedClients(Some(v));
            && r.Success?
            && r.value.order == ["app1", "app2"]
            && "app1" in r.value.redirectUris && "app2" in r.value.redirectUris
            && r.value.redirectUris["app1"] == ["https://a.test/cb", "https://b.test/cb"]
            && r.value.redirectUris["app2"] == ["https://c.test/cb"]
  {
    var cs := ExampleClients();
    ExampleClientsWellFormed();
    ExampleClientIds();
    AllowedClientsOfDistinct(cs);
    assert cs[0].clientId == "app1" && cs[1].clientId == "app2";
  }

  lemma DefaultPortDigits()
    ensures IntToDecimal(DefaultPort) == "8788"
  {
    assert NatToDecimal(8) == "8";
    assert NatToDecimal(87) == "8" + "7";
    assert NatToDecimal(878) == "87" + "8";
    assert NatToDecimal(8788) == "878" + "8";
  }

  /** With neither `JWT_AUDIENCES` nor `RESOURCE_SERVER_URL`, the audience is the localhost URL on the default port. */
  lemma DefaultAudienceExample()
    ensures Audiences(None, None, DefaultPort) == ["http://localhost:8788"]
  {
    NothingListed();
    DefaultLocalhostUrl();
  }

  /** An unset `JWT_AUDIENCES` lists no audience. */
  lemma NothingListed()
    ensures ListedAudiences(None) == []
  {
    assert Split("", ',') == [""];
    assert Trim("") == "";
  }

  /** The localhost default on port 8788. */
  lemma DefaultLocalhostUrl()
    ensures LocalhostUrl(DefaultPort) == "http://localhost:8788"
  {
    assert LocalhostUrl(DefaultPort) == LocalhostPrefix + "8788" by {
      DefaultPortDigits();
    }
  }

  /** `app1|` names no redirect URI list at all: the whole entry is reported as invalid. */
  lemma MissingUriListEntry()
    ensures ParseEntry("app1|") == Failure(InvalidEntry("app1|"))
  {
    assert Trim("") == "";
    assert "app1" + "|" + "" == "app1|";
    BlankUriListIsInvalid("app1", "");
  }
}
