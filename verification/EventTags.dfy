/** Which tags of a serialized event survive the filters, in which order and in which form. */
module EventTags {
  import opened EventText
  import opened DogStatsDEvents

  /** A tag as it is offered to the filters: its text and the key that can be filtered. */
  datatype Offer = Offer(text: string, key: string)

  /** The part of a tag before its first colon, or all of it. */
  predicate IsKeyOf(key: string, tag: string) {
    ':' !in key && (tag == key || key + ":" <= tag)
  }

  /** The global tags as they are, then the attributes as key:value. */
  predicate AreOffers(offers: seq<Offer>, globals: seq<string>, attrs: seq<(string, string)>) {
    && |offers| == |globals| + |attrs|
    && (forall i :: 0 <= i < |globals| ==> offers[i].text == globals[i] && IsKeyOf(offers[i].key, globals[i]))
    && (forall i :: 0 <= i < |attrs| ==>
          offers[|globals| + i] == Offer(attrs[i].0 + ":" + attrs[i].1, attrs[i].0))
  }

  /** Positions in increasing order, exactly those of the offers that no filter names. */
  predicate Picks(picks: seq<nat>, offers: seq<Offer>, filters: set<string>) {
    && (forall i, j :: 0 <= i < j < |picks| ==> picks[i] < picks[j])
    && (forall i :: 0 <= i < |picks| ==> picks[i] < |offers|)
    && (forall p :: 0 <= p < |offers| ==> (p in picks <==> offers[p].key !in filters))
  }

  /** The surviving tags are the offers at these positions. */
  predicate Selected(tags: seq<string>, picks: seq<nat>, offers: seq<Offer>) {
    && |tags| == |picks| && (forall i :: 0 <= i < |picks| ==> picks[i] < |offers|)
    && forall i :: 0 <= i < |picks| ==> tags[i] == offers[picks[i]].text
  }

  lemma NoOffers(filters: set<string>)
    ensures Picks([], [], filters) && Selected([], [], [])
  {
  }

  lemma OneMoreOffer(tags: seq<string>, picks: seq<nat>, offers: seq<Offer>, filters: set<string>, o: Offer)
    requires Picks(picks, offers, filters) && Selected(tags, picks, offers)
    ensures o.key in filters ==> Picks(picks, offers + [o], filters) && Selected(tags, picks, offers + [o])
    ensures o.key !in filters ==>
      Picks(picks + [|offers|], offers + [o], filters) && Selected(tags + [o.text], picks + [|offers|], offers + [o])
  {
    var more, longer := offers + [o], picks + [|offers|];
    assert forall p :: 0 <= p < |offers| ==> more[p] == offers[p];
    assert |offers| in longer by { assert longer[|picks|] == |offers|; }
    assert forall p :: p in picks ==> p in longer;
  }

  lemma {:induction false} KeyIs(tag: string)
    ensures IsKeyOf(GlobalKey(tag), tag)
  {
    CutAtColon(tag);
  }

  lemma {:induction false} CutAtColon(s: string)
    ensures Cut(s, ":").None? ==> ':' !in s
    ensures Cut(s, ":").Some? ==> ':' !in Cut(s, ":").value.0 && s == Cut(s, ":").value.0 + ":" + Cut(s, ":").value.1
  {
    if s != "" {
      if s[..1] == ":" {
        assert s == "" + ":" + s[1..];
      } else {
        CutAtColon(s[1..]);
        assert s == [s[0]] + s[1..] && s[..1] == [s[0]];
      }
    }
  }

  lemma OneMoreGlobal(offers: seq<Offer>, globals: seq<string>, o: Offer)
    requires globals != [] && AreOffers(offers, globals[..|globals| - 1], [])
    requires o.text == globals[|globals| - 1] && IsKeyOf(o.key, o.text)
    ensures AreOffers(offers + [o], globals, [])
  {
    hide IsKeyOf;
    var init := globals[..|globals| - 1];
    assert forall i :: 0 <= i < |init| ==> (offers + [o])[i] == offers[i] && init[i] == globals[i];
  }

  lemma OneMoreAttribute(offers: seq<Offer>, globals: seq<string>, attrs: seq<(string, string)>, o: Offer)
    requires attrs != [] && AreOffers(offers, globals, attrs[..|attrs| - 1])
    requires o == Offer(attrs[|attrs| - 1].0 + ":" + attrs[|attrs| - 1].1, attrs[|attrs| - 1].0)
    ensures AreOffers(offers + [o], globals, attrs)
  {
    hide IsKeyOf;
    var init := attrs[..|attrs| - 1];
    assert forall i :: 0 <= i < |offers| ==> (offers + [o])[i] == offers[i];
    forall i | 0 <= i < |attrs|
      ensures (offers + [o])[|globals| + i] == Offer(attrs[i].0 + ":" + attrs[i].1, attrs[i].0)
    {
      if i < |init| { assert init[i] == attrs[i]; }
    }
  }

  lemma LastGlobal(globals: seq<string>, filters: set<string>)
    requires globals != []
    ensures var before, t := GlobalTags(globals[..|globals| - 1], filters), globals[|globals| - 1];
            GlobalTags(globals, filters) == if GlobalKey(t) in filters then before else before + [t]
  {
    hide GlobalKey;
  }

  lemma LastAttribute(attrs: seq<(string, string)>, filters: set<string>, front: seq<string>)
    requires attrs != []
    ensures var before, a := AttributeTags(attrs[..|attrs| - 1], filters), attrs[|attrs| - 1];
            front + AttributeTags(attrs, filters) ==
              if a.0 in filters then front + before else front + before + [a.0 + ":" + a.1]
  {
  }

  lemma {:induction false} GlobalsSelected(globals: seq<string>, filters: set<string>)
    returns (offers: seq<Offer>, picks: seq<nat>)
    ensures AreOffers(offers, globals, [])
    ensures Picks(picks, offers, filters) && Selected(GlobalTags(globals, filters), picks, offers)
    decreases |globals|
  {
    if globals == [] {
      offers, picks := [], [];
      NoOffers(filters);
    } else {
      hide Picks, Selected, GlobalKey, IsKeyOf, AreOffers, GlobalTags;
      var init, t := globals[..|globals| - 1], globals[|globals| - 1];
      offers, picks := GlobalsSelected(init, filters);
      var o := Offer(t, GlobalKey(t));
      KeyIs(t);
      LastGlobal(globals, filters);
      OneMoreGlobal(offers, globals, o);
      OneMoreOffer(GlobalTags(init, filters), picks, offers, filters, o);
      picks := if o.key in filters then picks else picks + [|offers|];
      offers := offers + [o];
    }
  }

  /**
   The tags of a serialized event are the global tags and then the attributes as key:value, in their order, without
   exactly those whose key is filtered.
   */
  lemma {:induction false} SurvivingTags(globals: seq<string>, attrs: seq<(string, string)>, filters: set<string>)
    returns (offers: seq<Offer>, picks: seq<nat>)
    ensures AreOffers(offers, globals, attrs)
    ensures Picks(picks, offers, filters)
    ensures Selected(GlobalTags(globals, filters) + AttributeTags(attrs, filters), picks, offers)
    decreases |attrs|
  {
    hide Picks, Selected, GlobalTags, IsKeyOf, AreOffers;
    var front := GlobalTags(globals, filters);
    if attrs == [] {
      offers, picks := GlobalsSelected(globals, filters);
      assert front + [] == front;
    } else {
      hide AttributeTags;
      var init, a := attrs[..|attrs| - 1], attrs[|attrs| - 1];
      offers, picks := SurvivingTags(globals, init, filters);
      var o := Offer(a.0 + ":" + a.1, a.0);
      LastAttribute(attrs, filters, front);
      OneMoreAttribute(offers, globals, attrs, o);
      OneMoreOffer(front + AttributeTags(init, filters), picks, offers, filters, o);
      picks := if o.key in filters then picks else picks + [|offers|];
      offers := offers + [o];
    }
  }
}
