/**
 * The light and group store of LightsPlugin (Plugins/phillips_hue_lights_plugin.py):
 * lookup by id, partial update of one record, and the request that pushes the
 * updated record to the Hue bridge.
 *
 * Records are values: the plugin's lists are sequences that the updating
 * methods reassign. The bridge is not modelled; each request that would be
 * sent is appended to the `sent` log, and the bridge's answer is a parameter.
 */
module Lights {

  datatype Option<T> = None | Some(value: T)

  /** dict.get(key, default): the value when the key is present, the default otherwise. */
  function GetOr<T>(o: Option<T>, default: T): T
  {
    match o
    case Some(v) => v
    case None => default
  }

  /** The colour of a record, CIE xy coordinates as the bridge takes them. */
  datatype XY = XY(x: real, y: real)

  /** A LightModel or a GroupModel: the two record types have the same fields. */
  datatype Resource = Resource(id: string, name: string, isOn: bool, brightness: real, color: XY)

  /** The three fields of a requested state that the update reads; None is a missing key. */
  datatype Patch = Patch(isOn: Option<bool>, brightness: Option<real>, color: Option<XY>)

  const EmptyPatch: Patch := Patch(None, None, None)

  /** The three field assignments of change_light_state / change_group_state. */
  function ApplyPatch(r: Resource, p: Patch): (r': Resource)
    ensures r'.id == r.id && r'.name == r.name
    ensures p == EmptyPatch ==> r' == r
  {
    r.(isOn := GetOr(p.isOn, r.isOn), brightness := GetOr(p.brightness, r.brightness), color := GetOr(p.color, r.color))
  }

  /** Index of the first record with the given id, or |rs| when there is none. */
  function IndexOf(rs: seq<Resource>, id: string): (k: nat)
    ensures k <= |rs|
    ensures forall j :: 0 <= j < k ==> rs[j].id != id
    ensures k < |rs| ==> rs[k].id == id
    decreases |rs|
  {
    if rs == [] then 0
    else if rs[0].id == id then 0
    else 1 + IndexOf(rs[1..], id)
  }

  /** The record get_light_state returns: the first one with the id, if any. */
  function Lookup(rs: seq<Resource>, id: string): (r: Option<Resource>)
    ensures r.None? <==> forall j :: 0 <= j < |rs| ==> rs[j].id != id
    ensures r.Some? ==> r.value.id == id && r.value in rs
    ensures r.Some? ==> IndexOf(rs, id) < |rs| && r.value == rs[IndexOf(rs, id)]
  {
    var k := IndexOf(rs, id);
    if k < |rs| then Some(rs[k]) else None
  }

  /** The list after the first record with the id has been patched. */
  function PatchFirst(rs: seq<Resource>, id: string, p: Patch): (rs': seq<Resource>)
    ensures |rs'| == |rs|
    ensures forall j :: 0 <= j < |rs| ==> rs'[j].id == rs[j].id && rs'[j].name == rs[j].name
    ensures forall j :: 0 <= j < |rs| && rs'[j] != rs[j] ==> j == IndexOf(rs, id)
  {
    var k := IndexOf(rs, id);
    if k < |rs| then rs[k := ApplyPatch(rs[k], p)] else rs
  }

  /** The for-loop search over the list that all three lookups share. */
  method FindIndex(rs: seq<Resource>, id: string) returns (k: nat)
    ensures k <= |rs|
    ensures forall j :: 0 <= j < k ==> rs[j].id != id
    ensures k < |rs| ==> rs[k].id == id
    ensures k == IndexOf(rs, id)
  {
    k := 0;
    while k < |rs|
      invariant k <= |rs|
      invariant forall j :: 0 <= j < k ==> rs[j].id != id
    {
      if rs[k].id == id {
        return;
      }
      k := k + 1;
    }
  }

  // ---------------------------------------------------------------------------
  // The request sent to the bridge.
  // ---------------------------------------------------------------------------

  /** The two resource types the plugin writes to: one light, or a grouped light. */
  datatype ResourceType = Light | GroupedLight

  function Prefix(t: ResourceType): string
  {
    match t
    case Light => "/light/"
    case GroupedLight => "/grouped_light/"
  }

  datatype OnBody = OnBody(on: bool)
  datatype DimmingBody = DimmingBody(brightness: real)
  datatype ColorBody = ColorBody(xy: XY)

  /** The JSON body {"on": {"on": ..}, "dimming": {"brightness": ..}, "color": {"xy": ..}}. */
  datatype Payload = Payload(on: OnBody, dimming: DimmingBody, color: ColorBody)

  /** A PUT to the resource base URL followed by `path`. */
  datatype Request = Request(path: string, payload: Payload)

  /** The request _change_light (Light) or _change_group (GroupedLight) sends for a record. */
  function ChangeRequest(t: ResourceType, r: Resource): (req: Request)
    ensures Prefix(t) <= req.path && req.path[|Prefix(t)|..] == r.id
    ensures req.payload.on.on == r.isOn && req.payload.dimming.brightness == r.brightness
    ensures req.payload.color.xy == r.color
  {
    Request(Prefix(t) + r.id, Payload(OnBody(r.isOn), DimmingBody(r.brightness), ColorBody(r.color)))
  }

  /** Reads a record back from a request of the given type; the name is not sent, so it is supplied. */
  function ParseRequest(t: ResourceType, name: string, req: Request): Option<Resource>
  {
    var prefix := Prefix(t);
    if prefix <= req.path then
      Some(Resource(req.path[|prefix|..], name, req.payload.on.on, req.payload.dimming.brightness, req.payload.color.xy))
    else None
  }

  /** The bridge's answer to a PUT: success, or the HTTPError that was raised. */
  datatype HttpOutcome = Accepted | HttpError(error: string)

  /** What _change_light / _change_group return: the record, or the error. */
  datatype Reply = Updated(record: Resource) | Failed(error: string)

  function ReplyFor(r: Resource, outcome: HttpOutcome): (reply: Reply)
    ensures reply.Updated? <==> outcome.Accepted?
    ensures reply.Updated? ==> reply.record == r
    ensures reply.Failed? ==> reply.error == outcome.error
  {
    match outcome
    case Accepted => Updated(r)
    case HttpError(e) => Failed(e)
  }

  // ---------------------------------------------------------------------------
  // The plugin.
  // ---------------------------------------------------------------------------

  class LightsPlugin {
    var lights: seq<Resource>
    var groups: seq<Resource>
    /** The requests sent to the bridge, oldest first. */
    var sent: seq<Request>

    constructor (lights: seq<Resource>, groups: seq<Resource>)
      ensures this.lights == lights && this.groups == groups && sent == []
    {
      this.lights := lights;
      this.groups := groups;
      sent := [];
    }

    /** get_lights. */
    method GetLights() returns (ls: seq<Resource>)
      ensures ls == lights
    {
      ls := lights;
    }

    /** get_light_state. */
    method GetLightState(id: string) returns (r: Option<Resource>)
      ensures r == Lookup(lights, id)
      ensures r.Some? ==> r.value.id == id && r.value in lights
      ensures r.None? <==> forall j :: 0 <= j < |lights| ==> lights[j].id != id
    {
      var k := FindIndex(lights, id);
      if k < |lights| {
        return Some(lights[k]);
      }
      return None;
    }

    /**
     * change_light_state: the first light with the id is patched in the list,
     * then pushed to the bridge; its reply is returned. No light with the id:
     * nothing changes and nothing is sent.
     */
    method ChangeLightState(id: string, patch: Patch, outcome: HttpOutcome) returns (r: Option<Reply>)
      modifies this
      ensures lights == PatchFirst(old(lights), id, patch)
      ensures groups == old(groups)
      ensures var k := IndexOf(old(lights), id);
              if k < |old(lights)| then
                && sent == old(sent) + [ChangeRequest(Light, lights[k])]
                && r == Some(ReplyFor(lights[k], outcome))
              else sent == old(sent) && r == None
    {
      var k := FindIndex(lights, id);
      if k == |lights| {
        return None;
      }
      var light := lights[k];
      light := light.(isOn := GetOr(patch.isOn, light.isOn));
      light := light.(brightness := GetOr(patch.brightness, light.brightness));
      light := light.(color := GetOr(patch.color, light.color));
      lights := lights[k := light];
      var reply := Push(Light, light, outcome);
      return Some(reply);
    }

    /** change_group_state: the same update on the groups. */
    method ChangeGroupState(id: string, patch: Patch, outcome: HttpOutcome) returns (r: Option<Reply>)
      modifies this
      ensures groups == PatchFirst(old(groups), id, patch)
      ensures lights == old(lights)
      ensures var k := IndexOf(old(groups), id);
              if k < |old(groups)| then
                && sent == old(sent) + [ChangeRequest(GroupedLight, groups[k])]
                && r == Some(ReplyFor(groups[k], outcome))
              else sent == old(sent) && r == None
    {
      var k := FindIndex(groups, id);
      if k == |groups| {
        return None;
      }
      var group := groups[k];
      group := group.(isOn := GetOr(patch.isOn, group.isOn));
      group := group.(brightness := GetOr(patch.brightness, group.brightness));
      group := group.(color := GetOr(patch.color, group.color));
      groups := groups[k := group];
      var reply := Push(GroupedLight, group, outcome);
      return Some(reply);
    }

    /** _change_light / _change_group: send the record's state, return it or the HTTP error. */
    method Push(t: ResourceType, r: Resource, outcome: HttpOutcome) returns (reply: Reply)
      modifies this`sent
      ensures sent == old(sent) + [ChangeRequest(t, r)]
      ensures reply == ReplyFor(r, outcome)
    {
      sent := sent + [ChangeRequest(t, r)];
      match outcome
      case Accepted => reply := Updated(r);
      case HttpError(e) => reply := Failed(e);
    }
  }

  // ---------------------------------------------------------------------------
  // Properties of the update.
  // ---------------------------------------------------------------------------

  /**
   * Each of is_on, brightness and color takes the patch's value when it has
   * one and keeps the old value otherwise; id and name are untouched.
   */
  lemma PatchFields(r: Resource, p: Patch)
    ensures var r' := ApplyPatch(r, p);
            && r'.id == r.id && r'.name == r.name
            && (p.isOn.Some? ==> r'.isOn == p.isOn.value) && (p.isOn.None? ==> r'.isOn == r.isOn)
            && (p.brightness.Some? ==> r'.brightness == p.brightness.value) && (p.brightness.None? ==> r'.brightness == r.brightness)
            && (p.color.Some? ==> r'.color == p.color.value) && (p.color.None? ==> r'.color == r.color)
  {
  }

  /** Two lists with the same ids in the same order find every id at the same place. */
  lemma {:induction false} IndexOfSameIds(rs: seq<Resource>, rs2: seq<Resource>, id: string)
    requires |rs| == |rs2|
    requires forall j :: 0 <= j < |rs| ==> rs2[j].id == rs[j].id
    ensures IndexOf(rs2, id) == IndexOf(rs, id)
    decreases |rs|
  {
    if rs != [] && rs[0].id != id {
      IndexOfSameIds(rs[1..], rs2[1..], id);
    }
  }

  /** A patch keeps every id where it was, so every later lookup searches the same positions. */
  lemma PatchKeepsPositions(rs: seq<Resource>, id: string, p: Patch, other: string)
    ensures IndexOf(PatchFirst(rs, id, p), other) == IndexOf(rs, other)
  {
    IndexOfSameIds(rs, PatchFirst(rs, id, p), other);
  }

  /**
   * Looking up the patched id afterwards gives the patched record (the update
   * is kept in the list whatever the bridge answers); any other id gives what
   * it gave before.
   */
  lemma LookupAfterPatch(rs: seq<Resource>, id: string, p: Patch, other: string)
    ensures Lookup(PatchFirst(rs, id, p), id) == match Lookup(rs, id) case Some(r) => Some(ApplyPatch(r, p)) case None => None
    ensures other != id ==> Lookup(PatchFirst(rs, id, p), other) == Lookup(rs, other)
  {
    PatchKeepsPositions(rs, id, p, id);
    PatchKeepsPositions(rs, id, p, other);
  }

  /** Applying the same patch twice is the same as applying it once. */
  lemma PatchIdempotent(rs: seq<Resource>, id: string, p: Patch)
    ensures PatchFirst(PatchFirst(rs, id, p), id, p) == PatchFirst(rs, id, p)
  {
    PatchKeepsPositions(rs, id, p, id);
  }

  /** A patch with none of the three fields changes nothing. */
  lemma EmptyPatchChangesNothing(rs: seq<Resource>, id: string)
    ensures PatchFirst(rs, id, EmptyPatch) == rs
  {
  }

  /** Dropping a prefix after adding it; stated once so the round-trip proofs need not rediscover it. */
  lemma PrefixDrop(prefix: string, s: string)
    ensures prefix <= prefix + s && (prefix + s)[|prefix|..] == s
  {
  }

  /**
   * The request carries the record's whole state except its name: is_on under
   * on.on, brightness under dimming.brightness, color under color.xy, and the
   * id in the path.
   */
  lemma RequestRoundTrip(t: ResourceType, r: Resource)
    ensures ParseRequest(t, r.name, ChangeRequest(t, r)) == Some(r)
  {
    PrefixDrop(Prefix(t), r.id);
  }

  /** A light request is never read as a group request, nor the other way round. */
  lemma RequestTypesDisjoint(r: Resource)
    ensures ParseRequest(GroupedLight, r.name, ChangeRequest(Light, r)) == None
    ensures ParseRequest(Light, r.name, ChangeRequest(GroupedLight, r)) == None
  {
    var l := ChangeRequest(Light, r).path;
    var g := ChangeRequest(GroupedLight, r).path;
    assert l[1] == 'l';
    assert g[1] == 'g';
  }
}
