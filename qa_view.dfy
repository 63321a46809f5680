/**
 * The QA command centre: the fixed list of acceptance scenarios, the health status of each
 * priority stage, the scenario shown, and the Gherkin editor with its save cycle. The
 * persistence call is outside the model: the editor hands out the feedback to send and is
 * told whether it was stored.
 */
module QAView {
  import opened Wrappers
  import opened JsText

  datatype ScenarioStatus = Passing | Failing | Pending
  datatype Priority = P0 | P1 | P2

  /** A scenario, with the fields the logic reads (the descriptive texts, stability and test
      lists are display only). */
  datatype Scenario = Scenario(
    id: string,
    title: string,
    status: ScenarioStatus,
    priority: Priority,
    gherkin: seq<string>)

  /** The health of a priority stage. */
  datatype StageStatus = Broken | Stable | PendingStage

  /** `SCENARIOS`, in the order the list shows them. */
  function Scenarios(): seq<Scenario> {
    [LogLoading(), RoiEngine(), DeckGenerator(), StrategicInjection()]
  }

  function LogLoading(): Scenario {
    Scenario("1.1", "Carga de logs ERP/CRM", Passing, P0, LogLoadingSteps())
  }

  function LogLoadingSteps(): seq<string> {
    [
      "GIVEN tengo logs de sistema ERP/CRM en formato CSV",
      "WHEN cargo el archivo en la plataforma",
      "THEN el sistema procesa los logs automáticamente",
      "AND genera modelo de proceso visual sin sesgo humano"
    ]
  }

  function RoiEngine(): Scenario {
    Scenario("3.1", "Cálculo Automático de ROI", Passing, P0, RoiEngineSteps())
  }

  function RoiEngineSteps(): seq<string> {
    [
      "GIVEN he identificado ineficiencias en el proceso",
      "WHEN accedo al ROI Engine",
      "THEN veo el impacto financiero de cada ineficiencia",
      "AND muestra supuestos utilizados claramente"
    ]
  }

  function DeckGenerator(): Scenario {
    Scenario("2.1", "Generador de Decks IA", Failing, P1, DeckGeneratorSteps())
  }

  function DeckGeneratorSteps(): seq<string> {
    [
      "GIVEN tengo un proceso analizado completamente",
      "WHEN solicito generar deck ejecutivo",
      "THEN el sistema crea presentación con diagnóstico",
      "AND incluye plan de acción en menos de 30 segundos"
    ]
  }

  function StrategicInjection(): Scenario {
    Scenario("4.1", "Inyección Estratégica", Failing, P1, StrategicInjectionSteps())
  }

  function StrategicInjectionSteps(): seq<string> {
    [
      "GIVEN estoy analizando un proceso específico",
      "WHEN activo Smart Context Engine",
      "THEN recibo insights alineados con objetivos estratégicos",
      "AND sugiere acciones específicas por industria"
    ]
  }

  /** `SCENARIOS.filter(s => s.priority === priority)`. */
  function Group(scenarios: seq<Scenario>, p: Priority): seq<Scenario> {
    if |scenarios| == 0 then []
    else
      var last := scenarios[|scenarios| - 1];
      Group(scenarios[..|scenarios| - 1], p) + (if last.priority == p then [last] else [])
  }

  /** `group.some(s => s.status === status)`. */
  function SomeHas(group: seq<Scenario>, status: ScenarioStatus): bool {
    if |group| == 0 then false
    else group[0].status == status || SomeHas(group[1..], status)
  }

  /** `group.every(s => s.status === status)`. */
  function EveryHas(group: seq<Scenario>, status: ScenarioStatus): bool {
    if |group| == 0 then true
    else group[0].status == status && EveryHas(group[1..], status)
  }

  /** `getPriorityStatus`: broken when a scenario of the stage fails, stable when all pass,
      pending otherwise. */
  function PriorityStatus(scenarios: seq<Scenario>, p: Priority): StageStatus {
    var group := Group(scenarios, p);
    if SomeHas(group, Failing) then Broken
    else if EveryHas(group, Passing) then Stable
    else PendingStage
  }

  /** `SCENARIOS.find(s => s.id === selectedId) || SCENARIOS[0]`. */
  function ActiveScenario(scenarios: seq<Scenario>, selectedId: string): Scenario
    requires |scenarios| > 0
  {
    var i := FindId(scenarios, selectedId);
    if i < 0 then scenarios[0] else scenarios[i]
  }

  /** The index of the first scenario with the id, or -1. */
  function FindId(scenarios: seq<Scenario>, id: string): (r: int)
    ensures -1 <= r < |scenarios|
    ensures r >= 0 ==> scenarios[r].id == id && forall j | 0 <= j < r :: scenarios[j].id != id
    ensures r == -1 ==> forall j | 0 <= j < |scenarios| :: scenarios[j].id != id
  {
    if |scenarios| == 0 then -1
    else if scenarios[0].id == id then 0
    else
      var r := FindId(scenarios[1..], id);
      if r < 0 then -1 else r + 1
  }

  /** The editor's text for a scenario: `gherkin.join('\n')`. */
  function GherkinText(s: Scenario): string {
    Join(s.gherkin, "\n")
  }

  // ---------------------------------------------------------------------------------------
  // Properties of the pure part
  // ---------------------------------------------------------------------------------------

  lemma {:induction false} GroupMembers(scenarios: seq<Scenario>, p: Priority, s: Scenario)
    ensures s in Group(scenarios, p) <==> s in scenarios && s.priority == p
  {
    if |scenarios| > 0 {
      var init := scenarios[..|scenarios| - 1];
      GroupMembers(init, p, s);
      assert scenarios == init + [scenarios[|scenarios| - 1]];
    }
  }

  lemma {:induction false} SomeHasExactly(group: seq<Scenario>, status: ScenarioStatus)
    ensures SomeHas(group, status) <==> exists s | s in group :: s.status == status
  {
    if |group| > 0 {
      SomeHasExactly(group[1..], status);
      assert forall s | s in group :: s == group[0] || s in group[1..];
    }
  }

  lemma {:induction false} EveryHasExactly(group: seq<Scenario>, status: ScenarioStatus)
    ensures EveryHas(group, status) <==> forall s | s in group :: s.status == status
  {
    if |group| > 0 {
      EveryHasExactly(group[1..], status);
      assert forall s | s in group :: s == group[0] || s in group[1..];
    }
  }

  /** The stage status, stated over the scenarios of the priority: broken exactly when one
      fails; stable exactly when none fails and all pass (so a stage without scenarios is
      stable); pending otherwise. */
  lemma PriorityStatusMeaning(scenarios: seq<Scenario>, p: Priority)
    ensures PriorityStatus(scenarios, p) == Broken <==>
      exists s | s in scenarios :: s.priority == p && s.status == Failing
    ensures PriorityStatus(scenarios, p) == Stable <==>
      forall s | s in scenarios && s.priority == p :: s.status == Passing
    ensures PriorityStatus(scenarios, p) == PendingStage <==>
      (exists s | s in scenarios && s.priority == p :: s.status == Pending)
      && !(exists s | s in scenarios :: s.priority == p && s.status == Failing)
  {
    var group := Group(scenarios, p);
    SomeHasExactly(group, Failing);
    EveryHasExactly(group, Passing);
    forall s ensures s in group <==> s in scenarios && s.priority == p {
      GroupMembers(scenarios, p, s);
    }
  }

  /** Four scenarios, two passing at P0 followed by two failing at P1, make stage 0 stable,
      stage 1 broken and stage 2, which has no scenario, stable. */
  lemma StagesOfShape(all: seq<Scenario>)
    requires |all| == 4
    requires all[0].priority == P0 && all[0].status == Passing
    requires all[1].priority == P0 && all[1].status == Passing
    requires all[2].priority == P1 && all[2].status == Failing
    requires all[3].priority == P1 && all[3].status == Failing
    ensures PriorityStatus(all, P0) == Stable
    ensures PriorityStatus(all, P1) == Broken
    ensures PriorityStatus(all, P2) == Stable
  {
    PriorityStatusMeaning(all, P0);
    PriorityStatusMeaning(all, P1);
    PriorityStatusMeaning(all, P2);
    assert all[2] in all;
    assert forall s | s in all :: s == all[0] || s == all[1] || s == all[2] || s == all[3];
  }

  /** With the shipped scenarios, stage 0 is stable, stage 1 broken, and stage 2 stable. */
  lemma FixtureStages()
    ensures PriorityStatus(Scenarios(), P0) == Stable
    ensures PriorityStatus(Scenarios(), P1) == Broken
    ensures PriorityStatus(Scenarios(), P2) == Stable
  {
    StagesOfShape(Scenarios());
  }

  /** The scenario shown is the first one with the selected id, or the first scenario when
      no scenario has it. */
  lemma ActiveScenarioMeaning(scenarios: seq<Scenario>, selectedId: string)
    requires |scenarios| > 0
    ensures var a := ActiveScenario(scenarios, selectedId);
      && a in scenarios
      && ((exists s | s in scenarios :: s.id == selectedId) ==>
            a.id == selectedId && exists i | 0 <= i < |scenarios| :: scenarios[i] == a && forall j | 0 <= j < i :: scenarios[j].id != selectedId)
      && (!(exists s | s in scenarios :: s.id == selectedId) ==> a == scenarios[0])
  {
    var i := FindId(scenarios, selectedId);
    if i < 0 {
      assert forall s | s in scenarios :: s.id != selectedId;
    }
  }

  /** No two scenarios share an id. */
  predicate DistinctIds(scenarios: seq<Scenario>) {
    forall i, j | 0 <= i < j < |scenarios| :: scenarios[i].id != scenarios[j].id
  }

  /** When the ids are distinct, selecting a scenario's id shows that very scenario. */
  lemma SelectionOfDistinct(scenarios: seq<Scenario>, k: int)
    requires 0 <= k < |scenarios|
    requires DistinctIds(scenarios)
    ensures ActiveScenario(scenarios, scenarios[k].id) == scenarios[k]
  {
  }

  /** The ids of the shipped scenarios are distinct. */
  lemma FixtureIdsDistinct()
    ensures DistinctIds(Scenarios())
  {
    var all := Scenarios();
    assert all[0].id == "1.1" && all[1].id == "3.1" && all[2].id == "2.1" && all[3].id == "4.1";
  }

  // ---------------------------------------------------------------------------------------
  // The editor
  // ---------------------------------------------------------------------------------------

  datatype SaveStatus = Idle | Success | Error
  datatype Tab = Logic | Validation | Strategy

  /** What `saveScenarioFeedback` is called with. */
  datatype Feedback = Feedback(scenarioId: string, title: string, text: string)

  /** The component state of the QA view. `pendingResets` counts the 3-second timers a
      successful save has started and that have not fired yet. */
  class QAEditor {
    /** The scenario list the view shows. */
    const scenarios: seq<Scenario>
    var selectedId: string
    var isEditing: bool
    var editableGherkin: string
    var isSaving: bool
    var saveStatus: SaveStatus
    var activeTab: Tab
    var pendingResets: nat

    /** The state after the first render over a scenario list (the view passes `Scenarios()`):
        the first scenario selected and the mount effect run, which loads its Gherkin text
        and leaves editing off. */
    constructor (list: seq<Scenario>)
      requires |list| > 0
      ensures scenarios == list
      ensures selectedId == scenarios[0].id
      ensures editableGherkin == GherkinText(scenarios[0])
      ensures !isEditing && !isSaving && saveStatus == Idle && activeTab == Logic
      ensures pendingResets == 0
    {
      scenarios := list;
      new;
      selectedId := scenarios[0].id;
      editableGherkin := GherkinText(scenarios[0]);
      isEditing := false;
      isSaving := false;
      saveStatus := Idle;
      activeTab := Logic;
      pendingResets := 0;
    }

    /** The scenario on display. */
    function Active(): Scenario
      requires |scenarios| > 0
      reads this
    {
      ActiveScenario(scenarios, selectedId)
    }

    /** A click on a scenario. A new id re-runs the selection effect, which loads the new
        scenario's Gherkin and closes the editor; the same id changes nothing. */
    method Select(id: string)
      requires |scenarios| > 0
      modifies this
      ensures selectedId == id
      ensures old(selectedId) != id ==>
        editableGherkin == GherkinText(ActiveScenario(scenarios, id)) && !isEditing
      ensures old(selectedId) == id ==>
        editableGherkin == old(editableGherkin) && isEditing == old(isEditing)
      ensures isSaving == old(isSaving) && saveStatus == old(saveStatus)
      ensures activeTab == old(activeTab) && pendingResets == old(pendingResets)
    {
      if id != selectedId {
        selectedId := id;
        editableGherkin := GherkinText(ActiveScenario(scenarios, id));
        isEditing := false;
      }
    }

    /** The 'Editar' / 'Cerrar' button. */
    method ToggleEditing()
      modifies this
      ensures isEditing == !old(isEditing)
      ensures selectedId == old(selectedId) && editableGherkin == old(editableGherkin)
      ensures isSaving == old(isSaving) && saveStatus == old(saveStatus)
      ensures activeTab == old(activeTab) && pendingResets == old(pendingResets)
    {
      isEditing := !isEditing;
    }

    /** A tab button: switches the tab and closes the editor. */
    method SelectTab(tab: Tab)
      modifies this
      ensures activeTab == tab && !isEditing
      ensures selectedId == old(selectedId) && editableGherkin == old(editableGherkin)
      ensures isSaving == old(isSaving) && saveStatus == old(saveStatus)
      ensures pendingResets == old(pendingResets)
    {
      activeTab := tab;
      isEditing := false;
    }

    /** Typing in the text area. */
    method EditText(text: string)
      modifies this
      ensures editableGherkin == text
      ensures selectedId == old(selectedId) && isEditing == old(isEditing)
      ensures isSaving == old(isSaving) && saveStatus == old(saveStatus)
      ensures activeTab == old(activeTab) && pendingResets == old(pendingResets)
    {
      editableGherkin := text;
    }

    /** The first half of `handleSave`: a blank text is ignored; otherwise saving starts and
        the feedback for the scenario on display is handed out to be stored. */
    method StartSave() returns (sent: Option<Feedback>)
      requires |scenarios| > 0
      modifies this
      ensures IsBlank(old(editableGherkin)) ==> sent == None && isSaving == old(isSaving)
      ensures !IsBlank(old(editableGherkin)) ==>
        sent == Some(Feedback(old(Active()).id, old(Active()).title, old(editableGherkin))) && isSaving
      ensures selectedId == old(selectedId) && editableGherkin == old(editableGherkin)
      ensures isEditing == old(isEditing) && saveStatus == old(saveStatus)
      ensures activeTab == old(activeTab) && pendingResets == old(pendingResets)
    {
      if Trim(editableGherkin) == [] {
        return None;
      }
      isSaving := true;
      var scenario := Active();
      sent := Some(Feedback(scenario.id, scenario.title, editableGherkin));
    }

    /** The second half of `handleSave`, once the store answers: saving stops and the status
        shows the outcome; a success also starts the 3-second reset timer. */
    method FinishSave(stored: bool)
      modifies this
      ensures !isSaving
      ensures saveStatus == if stored then Success else Error
      ensures pendingResets == old(pendingResets) + (if stored then 1 else 0)
      ensures selectedId == old(selectedId) && editableGherkin == old(editableGherkin)
      ensures isEditing == old(isEditing) && activeTab == old(activeTab)
    {
      isSaving := false;
      if stored {
        saveStatus := Success;
        pendingResets := pendingResets + 1;
      } else {
        saveStatus := Error;
      }
    }

    /** A reset timer fires: the status goes back to idle and the editor closes. */
    method ResetTimerFires()
      requires pendingResets > 0
      modifies this
      ensures saveStatus == Idle && !isEditing
      ensures pendingResets == old(pendingResets) - 1
      ensures selectedId == old(selectedId) && editableGherkin == old(editableGherkin)
      ensures isSaving == old(isSaving) && activeTab == old(activeTab)
    {
      saveStatus := Idle;
      isEditing := false;
      pendingResets := pendingResets - 1;
    }
  }

  /** A save cycle that succeeds and whose timer fires leaves the editor closed, idle and not
      saving, with the text it sent. */
  method SaveCycle(editor: QAEditor) returns (sent: Option<Feedback>)
    requires |editor.scenarios| > 0 && !IsBlank(editor.editableGherkin)
    modifies editor
    ensures sent.Some? && sent.value.text == editor.editableGherkin
    ensures sent.value.scenarioId == ActiveScenario(editor.scenarios, editor.selectedId).id
    ensures !editor.isSaving && editor.saveStatus == Idle && !editor.isEditing
  {
    sent := editor.StartSave();
    editor.FinishSave(true);
    editor.ResetTimerFires();
  }
}
