/** Topic names: printing in the gateway, parsing in the processor, and the ids the
    WebSocket path lets through. */
module Topics {

  function InTopic(id: string): string { "ocpp/" + id + "/in" }

  function OutTopic(id: string): string { "ocpp/" + id + "/out" }

  /** `strings.Split(s, "/")`. */
  function Split(s: string): (parts: seq<string>)
    ensures parts != []
  {
    if s == [] then [""]
    else
      var rest := Split(s[1..]);
      if s[0] == '/' then [""] + rest else [[s[0]] + rest[0]] + rest[1..]
  }

  function Join(parts: seq<string>): string
    requires parts != []
  {
    if |parts| == 1 then parts[0] else parts[0] + "/" + Join(parts[1..])
  }

  lemma JoinFrom(first: string, rest: seq<string>)
    requires rest != []
    ensures Join([first] + rest) == first + "/" + Join(rest)
  {
    assert ([first] + rest)[1..] == rest;
  }

  lemma Associate(a: string, b: string, c: string)
    ensures (a + b) + c == a + (b + c)
  {
  }

  lemma JoinLonger(c: char, parts: seq<string>)
    requires parts != []
    ensures Join([[c] + parts[0]] + parts[1..]) == [c] + Join(parts)
  {
    var first, rest := parts[0], parts[1..];
    if rest != [] {
      JoinFrom([c] + first, rest);
      Associate([c], first, "/");
      Associate([c], first + "/", Join(rest));
    }
  }

  lemma {:induction false} JoinSplit(s: string)
    ensures Join(Split(s)) == s
  {
    if s != [] {
      JoinSplit(s[1..]);
      assert s == [s[0]] + s[1..];
      if s[0] == '/' {
        JoinFrom("", Split(s[1..]));
      } else {
        JoinLonger(s[0], Split(s[1..]));
      }
    }
  }

  lemma {:induction false} NoSeparators(s: string)
    ensures forall i :: 0 <= i < |Split(s)| ==> '/' !in Split(s)[i]
  {
    if s != [] {
      NoSeparators(s[1..]);
      var rest := Split(s[1..]);
      forall i | 0 <= i < |Split(s)| ensures '/' !in Split(s)[i] {
        if s[0] == '/' {
          assert i > 0 ==> Split(s)[i] == rest[i - 1];
        } else if i > 0 {
          assert Split(s)[i] == rest[i];
        } else {
          assert '/' !in rest[0];
        }
      }
    }
  }

  lemma ThreeParts(s: string)
    requires |Split(s)| == 3
    ensures s == Split(s)[0] + "/" + Split(s)[1] + "/" + Split(s)[2]
  {
    var p := Split(s);
    JoinSplit(s);
    assert p == [p[0]] + [p[1], p[2]] && [p[1], p[2]] == [p[1]] + [p[2]];
    JoinFrom(p[0], [p[1], p[2]]);
    JoinFrom(p[1], [p[2]]);
  }

  lemma {:induction false} SplitPiece(s: string)
    requires '/' !in s
    ensures Split(s) == [s]
  {
    if s != [] {
      assert s[0] in s;
      SplitPiece(s[1..]);
      assert s == [s[0]] + s[1..];
    }
  }

  lemma {:induction false} SplitAfter(piece: string, s: string)
    requires '/' !in piece
    ensures Split(piece + "/" + s) == [piece] + Split(s)
  {
    var whole := piece + "/" + s;
    if piece == [] {
      assert whole == "/" + s && whole[1..] == s;
    } else {
      assert piece[0] in piece;
      SplitAfter(piece[1..], s);
      assert whole[1..] == piece[1..] + "/" + s;
      assert piece == [piece[0]] + piece[1..];
    }
  }

  function ChargePointIDFromTopic(topic: string): string {
    var parts := Split(topic);
    if |parts| != 3 || parts[0] != "ocpp" || (parts[2] != "in" && parts[2] != "out") then ""
    else parts[1]
  }

  lemma SplitsInThree(id: string, last: string)
    requires '/' !in id && '/' !in last
    ensures Split("ocpp/" + id + "/" + last) == ["ocpp", id, last]
  {
    SplitPiece(last);
    SplitAfter(id, last);
    SplitAfter("ocpp", id + "/" + last);
    assert "ocpp/" + id + "/" + last == "ocpp" + "/" + (id + "/" + last);
  }

  lemma TopicsSplit(id: string)
    requires '/' !in id
    ensures Split(InTopic(id)) == ["ocpp", id, "in"] && Split(OutTopic(id)) == ["ocpp", id, "out"]
  {
    SplitsInThree(id, "in");
    SplitsInThree(id, "out");
    assert InTopic(id) == "ocpp/" + id + "/" + "in";
    assert OutTopic(id) == "ocpp/" + id + "/" + "out";
  }

  lemma SplitsAsTopic(topic: string, id: string, last: string)
    requires Split(topic) == ["ocpp", id, last]
    ensures '/' !in id
    ensures last == "in" ==> topic == InTopic(id)
    ensures last == "out" ==> topic == OutTopic(id)
  {
    NoSeparators(topic);
    assert '/' !in Split(topic)[1];
    ThreeParts(topic);
    assert "ocpp" + "/" + id + "/" + last == "ocpp/" + id + "/" + last;
    assert last == "in" ==> "ocpp/" + id + "/" + last == InTopic(id);
    assert last == "out" ==> "ocpp/" + id + "/" + last == OutTopic(id);
  }

  /** A topic names a charge point exactly when it is that id's in or out topic, and the id has
      no level separator. */
  lemma ParsesExactly(topic: string, id: string)
    requires id != ""
    ensures ChargePointIDFromTopic(topic) == id <==>
              '/' !in id && (topic == InTopic(id) || topic == OutTopic(id))
  {
    var parts := Split(topic);
    if ChargePointIDFromTopic(topic) == id {
      assert parts == ["ocpp", id, parts[2]];
      SplitsAsTopic(topic, id, parts[2]);
    }
    if '/' !in id {
      TopicsSplit(id);
    }
  }

  /** Printing then parsing gives the id back exactly when it has no level separator. */
  lemma RoundTripsExactly(id: string)
    ensures ChargePointIDFromTopic(InTopic(id)) == id <==> '/' !in id
    ensures ChargePointIDFromTopic(OutTopic(id)) == id <==> '/' !in id
  {
    if id == "" {
      TopicsSplit("");
    } else {
      ParsesExactly(InTopic(id), id);
      ParsesExactly(OutTopic(id), id);
    }
  }

  /** Topics of different ids, and in and out topics, never coincide. */
  lemma TopicsAreInjective(a: string, b: string)
    ensures InTopic(a) == InTopic(b) ==> a == b
    ensures OutTopic(a) == OutTopic(b) ==> a == b
    ensures InTopic(a) != OutTopic(b)
  {
    assert InTopic(a)[5..|InTopic(a)| - 3] == a;
    assert InTopic(b)[5..|InTopic(b)| - 3] == b;
    assert OutTopic(a)[5..|OutTopic(a)| - 4] == a;
    assert OutTopic(b)[5..|OutTopic(b)| - 4] == b;
    assert InTopic(a)[|InTopic(a)| - 1] == 'n' && OutTopic(b)[|OutTopic(b)| - 1] == 't';
  }

  // ----- The ids a WebSocket path may carry -----

  predicate ContainsAny(s: string, chars: string) {
    exists i :: 0 <= i < |s| && s[i] in chars
  }

  /** `/ws/{id}`, or the empty string. */
  function ExtractChargePointID(path: string): string {
    if !("/ws/" <= path) then ""
    else
      var id := path[4..];
      if id == "" || ContainsAny(id, "/+#") then "" else id
  }

  lemma ExtractsExactly(path: string, id: string)
    requires id != ""
    ensures ExtractChargePointID(path) == id <==> path == "/ws/" + id && '/' !in id && '+' !in id && '#' !in id
  {
    if "/ws/" <= path {
      assert path == "/ws/" + path[4..];
    }
    if path == "/ws/" + id {
      assert path[4..] == id;
      if ContainsAny(id, "/+#") {
        var i :| 0 <= i < |id| && id[i] in "/+#";
        assert id[i] == '/' || id[i] == '+' || id[i] == '#';
      } else {
        assert forall i :: 0 <= i < |id| ==> id[i] !in "/+#";
        assert '/' in "/+#" && '+' in "/+#" && '#' in "/+#";
        assert forall c :: c in id ==> exists i :: 0 <= i < |id| && id[i] == c;
      }
    }
  }

  // ----- The processor's subscription -----

  /** Level by level, a `+` matching any one level (MQTT 3.1.1, section 4.7.1.3). */
  predicate MatchesLevels(filter: seq<string>, levels: seq<string>) {
    |filter| == |levels| && forall i :: 0 <= i < |filter| ==> filter[i] == "+" || filter[i] == levels[i]
  }

  const INBOUND: string := "ocpp/+/in"

  predicate Subscribed(topic: string) {
    MatchesLevels(Split(INBOUND), Split(topic))
  }

  lemma OneLevelFree(levels: seq<string>)
    ensures MatchesLevels(["ocpp", "+", "in"], levels) <==> |levels| == 3 && levels[0] == "ocpp" && levels[2] == "in"
  {
    var f := ["ocpp", "+", "in"];
    assert f[0] == "ocpp" && f[1] == "+" && f[2] == "in";
    assert |"ocpp"| == 4 && |"in"| == 2 && |"+"| == 1;
  }

  lemma InboundLevels()
    ensures Split(INBOUND) == ["ocpp", "+", "in"]
  {
    TopicsSplit("+");
    assert INBOUND == InTopic("+");
  }

  lemma SubscribedMeans(topic: string)
    ensures Subscribed(topic) <==> |Split(topic)| == 3 && Split(topic)[0] == "ocpp" && Split(topic)[2] == "in"
  {
    InboundLevels();
    OneLevelFree(Split(topic));
  }

  /** Whatever the wildcard subscription receives is the in topic of the id parsed from it. */
  lemma SubscriptionNamesIts(topic: string)
    requires Subscribed(topic)
    ensures topic == InTopic(ChargePointIDFromTopic(topic))
  {
    SubscribedMeans(topic);
    var parts := Split(topic);
    assert parts == ["ocpp", parts[1], "in"];
    SplitsAsTopic(topic, parts[1], "in");
  }

  /** And it receives the in topic of an id exactly when the id has no level separator. */
  lemma SubscriptionSeesExactly(id: string)
    ensures Subscribed(InTopic(id)) <==> '/' !in id
  {
    SubscribedMeans(InTopic(id));
    if '/' !in id {
      TopicsSplit(id);
    } else if Subscribed(InTopic(id)) {
      SubscriptionNamesIts(InTopic(id));
      TopicsAreInjective(id, ChargePointIDFromTopic(InTopic(id)));
      RoundTripsExactly(id);
      assert false;
    }
  }
}
