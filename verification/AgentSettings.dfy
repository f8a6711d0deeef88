// What a device's settings are, over every run of the agent core: the operator's last word.
module AgentSettings {
  import opened Prelude
  import opened Registry
  import opened AgentSystem
  import opened AgentTheorems
  import Names

  datatype Setting = Exposure | ControlLines | AssertPolicy | Monitoring | MonitorBaud

  datatype Value = Flag(on: bool) | Rate(baud: int)

  function ValueOf(r: Rec, f: Setting): Value {
    match f
    case Exposure => Flag(r.exposed)
    case ControlLines => Flag(r.allowControlLines)
    case AssertPolicy => Flag(r.assertLinesOnOpen)
    case Monitoring => Flag(r.monitored)
    case MonitorBaud => Rate(r.monitorBaud)
  }

  /** What a device seen for the first time starts with. */
  function Unset(f: Setting): Value { if f.MonitorBaud? then Rate(0) else Flag(false) }

  /** The value an edit asks for, when it is about that setting; only a positive rate asks for one. */
  function Asks(e: Edit, f: Setting): Option<Value> {
    match (e, f)
    case (SetExposed(on), Exposure) => Some(Flag(on))
    case (SetControlLines(on), ControlLines) => Some(Flag(on))
    case (SetAssertLines(on), AssertPolicy) => Some(Flag(on))
    case (SetMonitored(on, _), Monitoring) => Some(Flag(on))
    case (SetMonitored(_, baud), MonitorBaud) => if baud > 0 then Some(Rate(baud)) else None
    case _ => None
  }

  ghost predicate EditsIt(v: View, l: Label, u: Uuid, f: Setting) {
    l.UpdateStep? && l.uuid == u && Asks(l.edit, f).Some? && u in UuidsOf(v.cfg)
  }

  /** The value asked for by the last of the first n steps that edits this setting of a known device. */
  ghost function LastEdit(ss: seq<Sys>, ls: seq<Label>, u: Uuid, f: Setting, n: nat): Option<Value>
    requires n <= |ls| < |ss|
  {
    if n == 0 then None
    else if EditsIt(ss[n - 1].v, ls[n - 1], u, f) then Asks(ls[n - 1].edit, f)
    else LastEdit(ss, ls, u, f, n - 1)
  }

  /** The record of k stays, with its uuid, and the setting changes only as asked. */
  ghost predicate Kept(v: View, t: View, l: Label, k: Key, f: Setting) {
    k in v.cfg ==>
      && k in t.cfg && t.cfg[k].uuid == v.cfg[k].uuid
      && ValueOf(t.cfg[k], f) ==
         if EditsIt(v, l, v.cfg[k].uuid, f) then Asks(l.edit, f).value else ValueOf(v.cfg[k], f)
  }

  /** A record that appears has everything unset and a uuid never seen before. */
  ghost predicate Appears(v: View, t: View, l: Label, k: Key, f: Setting) {
    k !in v.cfg && k in t.cfg ==> l.ScanStep? && ValueOf(t.cfg[k], f) == Unset(f) && t.cfg[k].uuid !in UuidsOf(v.cfg)
  }

  lemma EditValue(r: Rec, e: Edit, f: Setting)
    ensures ValueOf(ApplyEdit(r, e), f) == (if Asks(e, f).Some? then Asks(e, f).value else ValueOf(r, f))
    ensures ApplyEdit(r, e).uuid == r.uuid
  {
  }

  lemma UpdateKeepsSettings(v: View, u: Uuid, e: Edit, saveOk: bool, k: Key, f: Setting)
    requires WellFormed(v)
    ensures Kept(v, UpdateRec(v, u, e), UpdateStep(u, e, saveOk), k, f)
  {
    hide UpdateRec, KeyOf, WellFormed, UuidsOf, ValueOf, Asks, ApplyEdit;
    UpdatedConfig(v, u, e);
    if k in v.cfg {
      UuidNamesKey(v, k);
      EditValue(v.cfg[k], e, f);
    }
  }

  lemma UpdatedConfig(v: View, u: Uuid, e: Edit)
    requires WellFormed(v)
    ensures UpdateRec(v, u, e).cfg ==
            match KeyOf(v.cfg, u)
            case Some(k) => v.cfg[k := ApplyEdit(v.cfg[k], e)]
            case None => v.cfg
    ensures UpdateRec(v, u, e).cfg.Keys == v.cfg.Keys
    ensures KeyOf(v.cfg, u).Some? ==> KeyOf(v.cfg, u).value in v.cfg && v.cfg[KeyOf(v.cfg, u).value].uuid == u
  {
    WithDeviceKeeps(v, u);
    hide WithDevice, ApplyEdit;
  }

  lemma UuidNamesKey(v: View, k: Key)
    requires WellFormed(v) && k in v.cfg
    ensures KeyOf(v.cfg, v.cfg[k].uuid) == Some(k) && v.cfg[k].uuid in UuidsOf(v.cfg)
  {
  }

  lemma RenameKeepsSettings(v: View, w: Names.Words, u: Uuid, draws: Names.Draws, k: Key, f: Setting)
    requires w.WellFormed() && WellFormed(v)
    ensures Kept(v, Rename(v, w, u, draws), RenameStep(u, draws), k, f)
  {
    RenamedConfig(v, w, u, draws);
    hide Rename, KeyOf, WellFormed, UuidsOf, ValueOf, WordsOf, Names.Generated;
    var id := Names.Generated(w, draws, WordsOf(v.cfg));
    if KeyOf(v.cfg, u) == Some(k) && id.Some? { NameIsNoSetting(v.cfg[k], id.value, f); }
  }

  lemma NameIsNoSetting(r: Rec, n: string, f: Setting)
    ensures ValueOf(r.(wordId := n), f) == ValueOf(r, f)
  {
  }

  lemma RenamedConfig(v: View, w: Names.Words, u: Uuid, draws: Names.Draws)
    requires w.WellFormed() && WellFormed(v)
    ensures KeyOf(v.cfg, u).Some? ==> KeyOf(v.cfg, u).value in v.cfg
    ensures Rename(v, w, u, draws).cfg ==
            match (KeyOf(v.cfg, u), Names.Generated(w, draws, WordsOf(v.cfg)))
            case (Some(k), Some(id)) => v.cfg[k := v.cfg[k].(wordId := id)]
            case _ => v.cfg
    ensures Rename(v, w, u, draws).cfg.Keys == v.cfg.Keys
  {
    WithDeviceKeeps(v, u);
    hide WithDevice, Names.Generated;
  }

  lemma {:induction false} ReconciledRecord(
      v: View, w: Names.Words, ports: seq<PortInfo>, minted: seq<Identity>, n: nat, k: Key, f: Setting)
    requires w.WellFormed() && |minted| == |ports| && n <= |ports|
    ensures var t := Reconcile(v, w, ports, minted, n).0;
            && (k in v.cfg ==> k in t.cfg && t.cfg[k] == v.cfg[k])
            && (k !in v.cfg && k in t.cfg ==>
                  ValueOf(t.cfg[k], f) == Unset(f) && t.cfg[k].uuid in MintedUuids(minted, n))
  {
    hide Names.Generated;
    if n > 0 { ReconciledRecord(v, w, ports, minted, n - 1, k, f); }
  }

  lemma ScanKeepsSettings(v: View, w: Names.Words, l: Label, k: Key, f: Setting)
    requires w.WellFormed() && l.ScanStep? && |l.minted| == |l.ports| && FreshIdentities(v.cfg, l.minted)
    ensures var t := Scan(v, w, l.ports, l.minted, l.saveOk).0; Kept(v, t, l, k, f) && Appears(v, t, l, k, f)
  {
    ReconciledRecord(v, w, l.ports, l.minted, |l.ports|, k, f);
    hide Reconcile;
  }

  lemma StepKeepsSettings(s: Sys, l: Label, k: Key, f: Setting)
    requires s.words.WellFormed() && WellFormed(s.v) && Enabled(s, l)
    ensures Kept(s.v, Step(s, l).v, l, k, f) && Appears(s.v, Step(s, l).v, l, k, f)
  {
    hide Scan, UpdateRec, Rename;
    if l.ScanStep? {
      hide Kept, Appears;
      ScanKeepsSettings(s.v, s.words, l, k, f);
    } else if l.UpdateStep? {
      UpdateKeepsSettings(s.v, l.uuid, l.edit, l.saveOk, k, f);
      UpdatedConfig(s.v, l.uuid, l.edit);
      hide Kept;
    } else if l.RenameStep? {
      RenameKeepsSettings(s.v, s.words, l.uuid, l.draws, k, f);
      RenamedConfig(s.v, s.words, l.uuid, l.draws);
      hide Kept;
    } else {
      StepKeepsConfig(s, l);
      hide Step;
    }
  }

  lemma SettingsAcross(ss: seq<Sys>, ls: seq<Label>, i: nat, k: Key, f: Setting)
    requires Run(ss, ls) && i < |ls|
    ensures |ss| == |ls| + 1
    ensures Kept(ss[i].v, ss[i + 1].v, ls[i], k, f) && Appears(ss[i].v, ss[i + 1].v, ls[i], k, f)
  {
    hide Run, Step, Enabled, Effect, ClaimsConserved, PortsTracked, MonitorsTracked, WellFormed, Kept, Appears;
    RunShape(ss, ls);
    RunStep(ss, ls, i);
    StepKeepsSettings(ss[i], ls[i], k, f);
  }

  /** A uuid once known stays known. */
  lemma KnownStays(ss: seq<Sys>, ls: seq<Label>, i: nat, u: Uuid)
    requires Run(ss, ls) && i < |ls| < |ss| && u in UuidsOf(ss[i].v.cfg)
    ensures u in UuidsOf(ss[i + 1].v.cfg)
  {
    hide Run;
    var k :| k in ss[i].v.cfg && ss[i].v.cfg[k].uuid == u;
    SettingsAcross(ss, ls, i, k, Exposure);
  }

  lemma {:induction false} EditedIsKnown(ss: seq<Sys>, ls: seq<Label>, u: Uuid, f: Setting, n: nat)
    requires Run(ss, ls) && n <= |ls| < |ss| && LastEdit(ss, ls, u, f, n).Some?
    ensures u in UuidsOf(ss[n].v.cfg)
  {
    hide Run, Kept, UuidsOf;
    if n > 0 {
      if !EditsIt(ss[n - 1].v, ls[n - 1], u, f) { EditedIsKnown(ss, ls, u, f, n - 1); }
      KnownStays(ss, ls, n - 1, u);
    }
  }

  /** Every setting of every device is what the last edit of it asked for; never edited, it is
      what the stored configuration said, and unset for a device seen for the first time. */
  lemma {:induction false} SettingsAreTheLastEdit(ss: seq<Sys>, ls: seq<Label>, n: nat, k: Key, f: Setting)
    requires Run(ss, ls) && n <= |ls| < |ss| && k in ss[n].v.cfg
    ensures ValueOf(ss[n].v.cfg[k], f) ==
            match LastEdit(ss, ls, ss[n].v.cfg[k].uuid, f, n)
            case Some(value) => value
            case None => if k in ss[0].v.cfg then ValueOf(ss[0].v.cfg[k], f) else Unset(f)
  {
    hide Run, UuidsOf, ValueOf, Asks;
    if n > 0 {
      SettingsAcross(ss, ls, n - 1, k, f);
      var u := ss[n].v.cfg[k].uuid;
      if k in ss[n - 1].v.cfg {
        SettingsAreTheLastEdit(ss, ls, n - 1, k, f);
      } else {
        if LastEdit(ss, ls, u, f, n - 1).Some? { EditedIsKnown(ss, ls, u, f, n - 1); }
        if k in ss[0].v.cfg { RecordsStay(ss, ls, 0, n - 1, k); }
      }
    }
  }

  /** A record once made stays, with its uuid. */
  lemma {:induction false} RecordsStay(ss: seq<Sys>, ls: seq<Label>, i: nat, n: nat, k: Key)
    requires Run(ss, ls) && i <= n <= |ls| < |ss| && k in ss[i].v.cfg
    ensures k in ss[n].v.cfg && ss[n].v.cfg[k].uuid == ss[i].v.cfg[k].uuid
    decreases n - i
  {
    hide Run;
    if i < n {
      RecordsStay(ss, ls, i, n - 1, k);
      SettingsAcross(ss, ls, n - 1, k, Exposure);
    }
  }

  // ---- Names ----

  /** The handle a step gives the device with this record, if it renames it. */
  ghost function NewName(s: Sys, l: Label, u: Uuid): Option<string>
    requires s.words.WellFormed()
  {
    if l.RenameStep? && l.uuid == u then Names.Generated(s.words, l.draws, WordsOf(s.v.cfg)) else None
  }

  lemma UpdateKeepsNames(v: View, u: Uuid, e: Edit, k: Key)
    requires WellFormed(v) && k in v.cfg
    ensures k in UpdateRec(v, u, e).cfg && UpdateRec(v, u, e).cfg[k].wordId == v.cfg[k].wordId
  {
    UpdatedConfig(v, u, e);
    hide UpdateRec, WellFormed, UuidsOf, KeyOf;
  }

  lemma StepRenames(s: Sys, l: Label, k: Key)
    requires s.words.WellFormed() && WellFormed(s.v) && Enabled(s, l) && k in s.v.cfg
    ensures k in Step(s, l).v.cfg
    ensures Step(s, l).v.cfg[k].wordId == match NewName(s, l, s.v.cfg[k].uuid)
                                          case Some(id) => id
                                          case None => s.v.cfg[k].wordId
  {
    hide Scan, UpdateRec, Rename, Names.Generated, WellFormed;
    if l.ScanStep? {
      ScanKeepsRecord(s.v, s.words, l, k);
    } else if l.UpdateStep? {
      UpdateKeepsNames(s.v, l.uuid, l.edit, k);
    } else if l.RenameStep? {
      RenamedHandle(s.v, s.words, l.uuid, l.draws, k);
    } else {
      StepKeepsConfig(s, l);
      hide Step;
    }
  }

  lemma RenamedHandle(v: View, w: Names.Words, u: Uuid, draws: Names.Draws, k: Key)
    requires w.WellFormed() && WellFormed(v) && k in v.cfg
    ensures var t, id := Rename(v, w, u, draws), Names.Generated(w, draws, WordsOf(v.cfg));
            && k in t.cfg
            && t.cfg[k].wordId == if v.cfg[k].uuid == u && id.Some? then id.value else v.cfg[k].wordId
  {
    UuidNamesKey(v, k);
    RenamedConfig(v, w, u, draws);
    hide Rename, Names.Generated, WellFormed, UuidsOf, WordsOf;
  }

  lemma ScanKeepsRecord(v: View, w: Names.Words, l: Label, k: Key)
    requires w.WellFormed() && l.ScanStep? && |l.minted| == |l.ports| && k in v.cfg
    ensures var t := Scan(v, w, l.ports, l.minted, l.saveOk).0; k in t.cfg && t.cfg[k] == v.cfg[k]
  {
    ReconciledRecord(v, w, l.ports, l.minted, |l.ports|, k, Exposure);
    hide Reconcile;
  }

  /** A device's handle changes exactly when a step renames it and a name can be generated; it is then
      that name, which no device had. */
  lemma RenamedIff(ss: seq<Sys>, ls: seq<Label>, i: nat, k: Key)
    requires Run(ss, ls) && i < |ls| && k in ss[i].v.cfg
    ensures |ss| == |ls| + 1 && ss[i].words.WellFormed() && k in ss[i + 1].v.cfg
    ensures var before, after := ss[i].v.cfg[k].wordId, ss[i + 1].v.cfg[k].wordId;
            && (after != before <==> NewName(ss[i], ls[i], ss[i].v.cfg[k].uuid).Some?)
            && (after != before ==>
                  after == NewName(ss[i], ls[i], ss[i].v.cfg[k].uuid).value && after !in WordsOf(ss[i].v.cfg))
  {
    hide Run, Step, Enabled, Effect, ClaimsConserved, PortsTracked, MonitorsTracked, WellFormed, Names.Generated;
    RunShape(ss, ls);
    RunStep(ss, ls, i);
    StepRenames(ss[i], ls[i], k);
    if ls[i].RenameStep? { Names.GeneratedIsValidAndFree(ss[i].words, ls[i].draws, WordsOf(ss[i].v.cfg)); }
    assert ss[i].v.cfg[k].wordId in WordsOf(ss[i].v.cfg);
  }
}
