/** The join of CampaignsDetailed: each campaign record receives the
    `campaign-message` resources its relationships name, taken from the
    `included` section of the same response. */
module KlaviyoCampaigns {
  import opened Wrappers
  import opened Dicts
  import Json

  const CampaignMessageType: string := "campaign-message"

  /** A JSON:API resource object from `included`. */
  datatype Resource = Resource(id: string, kind: string, attributes: Json.Value)

  /** Whether a resource is a campaign-message with the given id. */
  predicate SameMessage(res: Resource, id: string)
  {
    res.kind == CampaignMessageType && res.id == id
  }

  /** `CampaignsDetailed._get_campaign_messages`: the included
      `campaign-message` resources by id (a later duplicate id wins). */
  function CampaignMessages(included: seq<Resource>): (r: Dict<Resource>)
    ensures Distinct(r)
    ensures forall k :: Get(r, k).Some? ==>
      var m := Get(r, k).value; m.id == k && m.kind == CampaignMessageType && m in included
    ensures forall i :: 0 <= i < |included| && included[i].kind == CampaignMessageType ==>
      Get(r, included[i].id).Some?
    ensures forall i ::
      (0 <= i < |included| && included[i].kind == CampaignMessageType
       && forall j :: i < j < |included| ==> !SameMessage(included[j], included[i].id))
      ==> Get(r, included[i].id) == Some(included[i])
    decreases |included|
  {
    if |included| == 0 then []
    else
      var init := CampaignMessages(included[..|included| - 1]);
      var m := included[|included| - 1];
      assert forall x :: x in included[..|included| - 1] ==> x in included;
      assert forall i :: 0 <= i < |included| - 1 ==> included[..|included| - 1][i] == included[i];
      if m.kind == CampaignMessageType then Set(init, m.id, m) else init
  }

  /** The related ids that survive the join: present, non-empty (falsy ids
      are skipped) and naming a message, in relationship order. */
  function KeptIds(relIds: seq<Option<string>>, messages: Dict<Resource>): (r: seq<string>)
    ensures forall k :: k in r ==> Get(messages, k).Some?
  {
    if |relIds| == 0 then []
    else
      (if relIds[0].Some? && relIds[0].value != "" && Get(messages, relIds[0].value).Some? then [relIds[0].value] else [])
      + KeptIds(relIds[1..], messages)
  }

  /** `CampaignsDetailed._set_campaign_messages`: the message of every
      related id that has one, in relationship order; ids without a message
      are dropped. */
  function LinkedMessages(relIds: seq<Option<string>>, messages: Dict<Resource>): (r: seq<Resource>)
    ensures |r| <= |relIds|
    ensures var kept := KeptIds(relIds, messages);
      |r| == |kept| && forall i :: 0 <= i < |r| ==> Get(messages, kept[i]) == Some(r[i])
    ensures forall i :: 0 <= i < |relIds| && relIds[i].Some? && relIds[i].value != "" && Get(messages, relIds[i].value).Some? ==>
      Get(messages, relIds[i].value).value in r
    decreases |relIds|
  {
    if |relIds| == 0 then []
    else
      var rest := LinkedMessages(relIds[1..], messages);
      var id := relIds[0];
      assert forall i :: 1 <= i < |relIds| ==> relIds[i] == relIds[1..][i - 1];
      if id.Some? && id.value != "" && Get(messages, id.value).Some? then
        var r := [Get(messages, id.value).value] + rest;
        assert KeptIds(relIds, messages) == [id.value] + KeptIds(relIds[1..], messages);
        assert forall i :: 1 <= i < |r| ==> r[i] == rest[i - 1];
        r
      else
        assert KeptIds(relIds, messages) == KeptIds(relIds[1..], messages);
        rest
  }

  /** Joining against the included section: every linked message is an
      included `campaign-message` whose id is the matching related id, and
      the linked messages follow the record's relationship order. */
  lemma JoinFollowsRelationships(relIds: seq<Option<string>>, included: seq<Resource>)
    ensures var r := LinkedMessages(relIds, CampaignMessages(included));
      var kept := KeptIds(relIds, CampaignMessages(included));
      && |r| == |kept|
      && (forall i :: 0 <= i < |r| ==> r[i].id == kept[i] && r[i].kind == CampaignMessageType && r[i] in included)
  {
    var msgs := CampaignMessages(included);
    var r := LinkedMessages(relIds, msgs);
    var kept := KeptIds(relIds, msgs);
    forall i | 0 <= i < |r| ensures r[i].id == kept[i] && r[i].kind == CampaignMessageType && r[i] in included {
      assert Get(msgs, kept[i]) == Some(r[i]);
    }
  }

  /** A related id is matched exactly when the included section holds a
      `campaign-message` with that id. */
  lemma MatchedIffIncluded(relIds: seq<Option<string>>, included: seq<Resource>, i: nat)
    requires i < |relIds| && relIds[i].Some? && relIds[i].value != ""
    ensures (exists m :: m in LinkedMessages(relIds, CampaignMessages(included)) && m.id == relIds[i].value)
        <==> (exists j :: 0 <= j < |included| && included[j].kind == CampaignMessageType && included[j].id == relIds[i].value)
  {
    MatchedIffHeld(relIds, CampaignMessages(included), included, i);
  }

  /** The argument of `MatchedIffIncluded` for any id map that holds exactly
      the included campaign-messages by id. */
  lemma MatchedIffHeld(relIds: seq<Option<string>>, msgs: Dict<Resource>, included: seq<Resource>, i: nat)
    requires i < |relIds| && relIds[i].Some? && relIds[i].value != ""
    requires forall k :: Get(msgs, k).Some? ==>
      var m := Get(msgs, k).value; m.id == k && m.kind == CampaignMessageType && m in included
    requires forall j :: 0 <= j < |included| && included[j].kind == CampaignMessageType ==>
      Get(msgs, included[j].id).Some?
    ensures (exists m :: m in LinkedMessages(relIds, msgs) && m.id == relIds[i].value)
        <==> (exists j :: 0 <= j < |included| && included[j].kind == CampaignMessageType && included[j].id == relIds[i].value)
  {
    var r := LinkedMessages(relIds, msgs);
    var k := relIds[i].value;
    if exists j :: 0 <= j < |included| && included[j].kind == CampaignMessageType && included[j].id == k {
      var j :| 0 <= j < |included| && included[j].kind == CampaignMessageType && included[j].id == k;
      assert Get(msgs, k).Some?;
      assert Get(msgs, k).value in r;
    }
    if exists m :: m in r && m.id == k {
      var m :| m in r && m.id == k;
      var p :| 0 <= p < |r| && r[p] == m;
      assert Get(msgs, KeptIds(relIds, msgs)[p]) == Some(m);
      var j :| 0 <= j < |included| && included[j] == m;
    }
  }
}
