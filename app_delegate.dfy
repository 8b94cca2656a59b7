/**
  The menu-bar delegate: the persisted settings and their defaults, the rule
  for accepting a pasted API key, the check marks of the language menus, the
  enable toggle, and the decision flow of `triggerTranslation` from the
  captured text to what its completion yields.
 */
module App {
  import opened Wrappers
  import Text
  import GeminiService
  import Monitor

  // ---------------------------------------------------------------------------
  // Persisted settings

  /** A value in the user defaults: a string or a boolean. */
  datatype Stored = Str(s: string) | Flag(b: bool)

  type Defaults = map<string, Stored>

  const SourceLanguageKey := "SourceLanguageV3"
  const TargetLanguageKey := "TargetLanguageV3"
  const EnabledKey := "IsTranslationEnabledV2"
  const APIKeyKey := "GeminiAPIKey"

  const DefaultSourceLanguage := "Russian"
  const DefaultTargetLanguage := "German"

  /** `string(forKey:)`: the string stored under `key`, if it is one. */
  function StringFor(d: Defaults, key: string): Option<string> {
    if key in d && d[key].Str? then Some(d[key].s) else None
  }

  function SourceLanguageIn(d: Defaults): string {
    StringFor(d, SourceLanguageKey).GetOr(DefaultSourceLanguage)
  }

  function TargetLanguageIn(d: Defaults): string {
    StringFor(d, TargetLanguageKey).GetOr(DefaultTargetLanguage)
  }

  /** `object(forKey:) as? Bool ?? true`. */
  function TranslationEnabledIn(d: Defaults): bool {
    if EnabledKey in d && d[EnabledKey].Flag? then d[EnabledKey].b else true
  }

  /** With nothing stored, the source is Russian, the target German, and
      translation is enabled. */
  lemma DefaultsWhenUnset(d: Defaults)
    requires SourceLanguageKey !in d && TargetLanguageKey !in d && EnabledKey !in d
    ensures SourceLanguageIn(d) == "Russian"
    ensures TargetLanguageIn(d) == "German"
    ensures TranslationEnabledIn(d)
  {
  }

  /** Each setter is read back by its getter and leaves the other two
      settings as they were. */
  lemma SettingsRoundTrip(d: Defaults, lang: string, enabled: bool)
    ensures SourceLanguageIn(d[SourceLanguageKey := Str(lang)]) == lang
    ensures TargetLanguageIn(d[SourceLanguageKey := Str(lang)]) == TargetLanguageIn(d)
    ensures TranslationEnabledIn(d[SourceLanguageKey := Str(lang)]) == TranslationEnabledIn(d)
    ensures TargetLanguageIn(d[TargetLanguageKey := Str(lang)]) == lang
    ensures SourceLanguageIn(d[TargetLanguageKey := Str(lang)]) == SourceLanguageIn(d)
    ensures TranslationEnabledIn(d[TargetLanguageKey := Str(lang)]) == TranslationEnabledIn(d)
    ensures TranslationEnabledIn(d[EnabledKey := Flag(enabled)]) == enabled
    ensures SourceLanguageIn(d[EnabledKey := Flag(enabled)]) == SourceLanguageIn(d)
    ensures TargetLanguageIn(d[EnabledKey := Flag(enabled)]) == TargetLanguageIn(d)
  {
  }

  /** `pasteAPIKey`'s rule: the pasteboard string, trimmed, if anything is
      left of it. */
  function AcceptedAPIKey(pasteboard: Option<string>): (k: Option<string>)
    ensures k.Some? <==> pasteboard.Some? && !Text.AllWhitespace(pasteboard.value)
    ensures k.Some? ==> k.value == Text.Trim(pasteboard.value) && k.value != []
  {
    match pasteboard
    case None => None
    case Some(s) =>
      var key := Text.Trim(s);
      if key == [] then None else Some(key)
  }

  /** An accepted key is already trimmed: pasting it again stores the same key. */
  lemma AcceptedKeyIsTrimmed(pasteboard: Option<string>)
    requires AcceptedAPIKey(pasteboard).Some?
    ensures AcceptedAPIKey(AcceptedAPIKey(pasteboard)) == AcceptedAPIKey(pasteboard)
  {
    Text.TrimIdempotent(pasteboard.value);
  }

  /** A key accepted from the pasteboard passes the key check of
      `translate`: with it stored, no `noAPIKey` error can arise. */
  lemma AcceptedKeyIsUsable(d: Defaults, pasteboard: Option<string>)
    requires AcceptedAPIKey(pasteboard).Some?
    ensures var d' := d[APIKeyKey := Str(AcceptedAPIKey(pasteboard).value)];
            StringFor(d', APIKeyKey) == AcceptedAPIKey(pasteboard) && StringFor(d', APIKeyKey).GetOr("") != ""
  {
  }

  // ---------------------------------------------------------------------------
  // Menus

  datatype CheckState = On | Off | Mixed

  /** An `NSMenuItem`: its title and its check mark. */
  class MenuItem {
    var title: string
    var state: CheckState

    constructor (title: string, state: CheckState)
      ensures this.title == title && this.state == state
    {
      this.title := title;
      this.state := state;
    }
  }

  /** An `NSMenu`: its items in order. */
  class Menu {
    var items: seq<MenuItem>

    constructor (items: seq<MenuItem>)
      ensures this.items == items
    {
      this.items := items;
    }
  }

  // ---------------------------------------------------------------------------
  // The translation flow

  /** What the user chose in a modal alert. */
  datatype ModalResponse = AlertFirstButtonReturn | AlertSecondButtonReturn

  /** The observable steps of `triggerTranslation`, completion calls included. */
  datatype Step =
    | InputDialog(text: string)                          // "Translate this text?"
    | ServiceCall(text: string, source: string, target: string)  // geminiService.translate
    | ResultDialog(translation: string)                  // "Translation Result"
    | ErrorDialog(error: GeminiService.TranslationError)
    | Completion(value: Option<string>)

  /** How many times the completion is called in `steps`. */
  function Completions(steps: seq<Step>): nat {
    if steps == [] then 0 else (if steps[0].Completion? then 1 else 0) + Completions(steps[1..])
  }

  lemma {:induction false} CompletionsAppend(a: seq<Step>, b: seq<Step>)
    ensures Completions(a + b) == Completions(a) + Completions(b)
  {
    if a != [] {
      assert (a + b)[1..] == a[1..] + b;
      CompletionsAppend(a[1..], b);
    } else {
      assert a + b == b;
    }
  }

  lemma CompletionsPair(x: Step, y: Step)
    ensures Completions([x, y]) == Completions([x]) + Completions([y])
  {
    CompletionsAppend([x], [y]);
    assert [x] + [y] == [x, y];
  }

  class AppDelegate {
    var defaults: Defaults
    const inputMonitor: Monitor.InputMonitor
    const sourceLanguageMenu: Menu
    const targetLanguageMenu: Menu
    /** Titles of the status menu's first two items, "Source: …" and "Target: …". */
    var sourceTitle: string
    var targetTitle: string

    constructor (stored: Defaults, pasteboard: Option<string>, sourceMenu: Menu, targetMenu: Menu)
      ensures defaults == stored && fresh(inputMonitor)
      ensures inputMonitor.isEnabled && !inputMonitor.isMacroRunning && !inputMonitor.hasDelegate
      ensures inputMonitor.pasteboard == pasteboard && inputMonitor.log == []
      ensures sourceLanguageMenu == sourceMenu && targetLanguageMenu == targetMenu
      ensures sourceTitle == "Source: " + SourceLanguageIn(stored)
      ensures targetTitle == "Target: " + TargetLanguageIn(stored)
    {
      defaults := stored;
      inputMonitor := new Monitor.InputMonitor(pasteboard);
      sourceLanguageMenu := sourceMenu;
      targetLanguageMenu := targetMenu;
      sourceTitle := "Source: " + SourceLanguageIn(stored);
      targetTitle := "Target: " + TargetLanguageIn(stored);
    }

    function CurrentSourceLanguage(): string
      reads this
    {
      SourceLanguageIn(defaults)
    }

    function CurrentTargetLanguage(): string
      reads this
    {
      TargetLanguageIn(defaults)
    }

    function IsTranslationEnabled(): bool
      reads this
    {
      TranslationEnabledIn(defaults)
    }

    /** On launch: become the monitor's delegate and hand it the persisted
        enable flag. */
    method AttachMonitor()
      modifies inputMonitor
      ensures inputMonitor.hasDelegate && inputMonitor.isEnabled == IsTranslationEnabled()
      ensures inputMonitor.isMacroRunning == old(inputMonitor.isMacroRunning)
      ensures inputMonitor.pasteboard == old(inputMonitor.pasteboard) && inputMonitor.log == old(inputMonitor.log)
    {
      inputMonitor.hasDelegate := true;
      inputMonitor.isEnabled := IsTranslationEnabled();
    }

    /** Flips the persisted flag, pushes the new value into the monitor and
        sets the sender's check mark to match. */
    method ToggleTranslation(sender: MenuItem)
      modifies this, inputMonitor, sender
      ensures IsTranslationEnabled() == !old(IsTranslationEnabled())
      ensures defaults == old(defaults)[EnabledKey := Flag(!old(IsTranslationEnabled()))]
      ensures inputMonitor.isEnabled == IsTranslationEnabled()
      ensures sender.state == (if IsTranslationEnabled() then On else Off) && sender.title == old(sender.title)
      ensures inputMonitor.isMacroRunning == old(inputMonitor.isMacroRunning)
      ensures inputMonitor.hasDelegate == old(inputMonitor.hasDelegate)
      ensures inputMonitor.pasteboard == old(inputMonitor.pasteboard) && inputMonitor.log == old(inputMonitor.log)
      ensures sourceTitle == old(sourceTitle) && targetTitle == old(targetTitle)
    {
      defaults := defaults[EnabledKey := Flag(!IsTranslationEnabled())];
      inputMonitor.isEnabled := IsTranslationEnabled();
      sender.state := if IsTranslationEnabled() then On else Off;
    }

    /** Stores the trimmed string on the general pasteboard, the one the
        monitor writes its translations to, as the API key when anything is
        left of it; `saved` tells which of the two alerts is shown. */
    method PasteAPIKey() returns (saved: bool)
      modifies this
      ensures saved <==> inputMonitor.pasteboard.Some? && !Text.AllWhitespace(inputMonitor.pasteboard.value)
      ensures saved ==> defaults == old(defaults)[APIKeyKey := Str(Text.Trim(inputMonitor.pasteboard.value))]
      ensures !saved ==> defaults == old(defaults)
      ensures sourceTitle == old(sourceTitle) && targetTitle == old(targetTitle)
    {
      var accepted := AcceptedAPIKey(inputMonitor.pasteboard);
      saved := accepted.Some?;
      if saved {
        assert accepted.value == Text.Trim(inputMonitor.pasteboard.value);
        defaults := defaults[APIKeyKey := Str(accepted.value)];
      }
    }

    /** Puts the check mark on the items titled `selectedTitle` and takes it
        off all others. */
    method UpdateMenuState(menu: Menu, selectedTitle: string)
      modifies set item | item in menu.items
      ensures menu.items == old(menu.items)
      ensures forall i :: 0 <= i < |menu.items| ==>
                menu.items[i].state == (if menu.items[i].title == selectedTitle then On else Off)
      ensures forall item :: item in menu.items ==> item.title == old(item.title)
    {
      for idx := 0 to |menu.items|
        invariant forall i :: 0 <= i < idx ==>
                    menu.items[i].state == (if menu.items[i].title == selectedTitle then On else Off)
        invariant forall item :: item in menu.items ==> item.title == old(item.title)
      {
        var item := menu.items[idx];
        item.state := if item.title == selectedTitle then On else Off;
      }
    }

    /** A source-language item was chosen: store its title, move the check
        mark, retitle the "Source:" item. */
    method SelectSourceLanguage(sender: MenuItem)
      modifies this, set item | item in sourceLanguageMenu.items
      ensures defaults == old(defaults)[SourceLanguageKey := Str(old(sender.title))]
      ensures CurrentSourceLanguage() == old(sender.title)
      ensures CurrentTargetLanguage() == old(CurrentTargetLanguage())
      ensures forall i :: 0 <= i < |sourceLanguageMenu.items| ==>
                sourceLanguageMenu.items[i].state ==
                  (if sourceLanguageMenu.items[i].title == old(sender.title) then On else Off)
      ensures forall item :: item in sourceLanguageMenu.items ==> item.title == old(item.title)
      ensures sourceTitle == "Source: " + old(sender.title) && targetTitle == old(targetTitle)
    {
      var lang := sender.title;
      defaults := defaults[SourceLanguageKey := Str(lang)];
      SettingsRoundTrip(old(defaults), lang, true);
      UpdateMenuState(sourceLanguageMenu, CurrentSourceLanguage());
      sourceTitle := "Source: " + CurrentSourceLanguage();
    }

    /** The same for the target language. */
    method SelectTargetLanguage(sender: MenuItem)
      modifies this, set item | item in targetLanguageMenu.items
      ensures defaults == old(defaults)[TargetLanguageKey := Str(old(sender.title))]
      ensures CurrentTargetLanguage() == old(sender.title)
      ensures CurrentSourceLanguage() == old(CurrentSourceLanguage())
      ensures forall i :: 0 <= i < |targetLanguageMenu.items| ==>
                targetLanguageMenu.items[i].state ==
                  (if targetLanguageMenu.items[i].title == old(sender.title) then On else Off)
      ensures forall item :: item in targetLanguageMenu.items ==> item.title == old(item.title)
      ensures targetTitle == "Target: " + old(sender.title) && sourceTitle == old(sourceTitle)
    {
      var lang := sender.title;
      defaults := defaults[TargetLanguageKey := Str(lang)];
      SettingsRoundTrip(old(defaults), lang, true);
      UpdateMenuState(targetLanguageMenu, CurrentTargetLanguage());
      targetTitle := "Target: " + CurrentTargetLanguage();
    }

    /** `triggerTranslation`: blank text is dropped at once; otherwise the user
        confirms, the service translates (its outcome is `result`), and the
        user chooses to paste. The completion is called exactly once, last,
        and yields the translation only if every stage said yes. */
    method TriggerTranslation(text: string, inputResponse: ModalResponse,
                              result: Result<string, GeminiService.TranslationError>,
                              outputResponse: ModalResponse)
      returns (completion: Option<string>, steps: seq<Step>)
      ensures Completions(steps) == 1 && steps != [] && steps[|steps| - 1] == Completion(completion)
      ensures Text.AllWhitespace(text) ==> steps == [Completion(None)]
      ensures InputDialog(text) in steps <==> !Text.AllWhitespace(text)
      ensures (exists i :: 0 <= i < |steps| && steps[i].ServiceCall?) <==>
                !Text.AllWhitespace(text) && inputResponse == AlertFirstButtonReturn
      ensures forall i :: 0 <= i < |steps| && steps[i].ServiceCall? ==>
                steps[i] == ServiceCall(text, CurrentSourceLanguage(), CurrentTargetLanguage())
      ensures completion.Some? <==>
                !Text.AllWhitespace(text) && inputResponse == AlertFirstButtonReturn &&
                result.Success? && outputResponse == AlertFirstButtonReturn
      ensures completion.Some? ==> completion.value == result.value
    {
      if Text.Trim(text) == [] {
        return None, [Completion(None)];
      }
      completion, steps := ConfirmAndTranslate(text, inputResponse, result, outputResponse);
    }

    /** The block `triggerTranslation` schedules for non-blank text: the input
        dialog, then, if the user chose "Translate", the service call with the
        current languages and the handling of its result. */
    method ConfirmAndTranslate(text: string, inputResponse: ModalResponse,
                               result: Result<string, GeminiService.TranslationError>,
                               outputResponse: ModalResponse)
      returns (completion: Option<string>, steps: seq<Step>)
      ensures Completions(steps) == 1 && steps != [] && steps[|steps| - 1] == Completion(completion)
      ensures steps[0] == InputDialog(text)
      ensures (exists i :: 0 <= i < |steps| && steps[i].ServiceCall?) <==> inputResponse == AlertFirstButtonReturn
      ensures forall i :: 0 <= i < |steps| && steps[i].ServiceCall? ==>
                steps[i] == ServiceCall(text, CurrentSourceLanguage(), CurrentTargetLanguage())
      ensures completion.Some? <==>
                inputResponse == AlertFirstButtonReturn && result.Success? && outputResponse == AlertFirstButtonReturn
      ensures completion.Some? ==> completion.value == result.value
    {
      if inputResponse != AlertFirstButtonReturn {
        steps := [InputDialog(text), Completion(None)];
        CompletionsPair(InputDialog(text), Completion(None));
        return None, steps;
      }
      var call := ServiceCall(text, CurrentSourceLanguage(), CurrentTargetLanguage());
      var after;
      completion, after := HandleTranslationResult(result, outputResponse);
      steps := [InputDialog(text), call] + after;
      CompletionsAppend([InputDialog(text), call], after);
      assert steps == [InputDialog(text), call, after[0], after[1]];
      assert steps[1].ServiceCall?;
    }

    /** The service's completion inside `triggerTranslation`: on success the
        result dialog, pasting only if the user chooses "Paste"; on failure the
        error dialog and no translation. */
    method HandleTranslationResult(result: Result<string, GeminiService.TranslationError>,
                                   outputResponse: ModalResponse)
      returns (completion: Option<string>, steps: seq<Step>)
      ensures Completions(steps) == 1
      ensures result.Success? ==> steps == [ResultDialog(result.value), Completion(completion)]
      ensures result.Failure? ==> steps == [ErrorDialog(result.error), Completion(completion)]
      ensures completion.Some? <==> result.Success? && outputResponse == AlertFirstButtonReturn
      ensures completion.Some? ==> completion.value == result.value
    {
      match result {
        case Success(translation) =>
          if outputResponse == AlertFirstButtonReturn {
            completion := Some(translation);
          } else {
            completion := None;
          }
          steps := [ResultDialog(translation), Completion(completion)];
          CompletionsPair(ResultDialog(translation), Completion(completion));
        case Failure(error) =>
          completion := None;
          steps := [ErrorDialog(error), Completion(None)];
          CompletionsPair(ErrorDialog(error), Completion(None));
      }
    }

    /** One hotkey press carried through: the monitor's macro, then, if it
        handed text over, this delegate's flow, then the completion back in the
        monitor. A press that finds the monitor enabled and idle leaves it idle
        again, pastes exactly when the flow yields a translation and otherwise
        leaves the pasteboard as the macro left it; the delegate stays set, so
        presses can follow one another. */
    method RunHotKey(ax: Option<string>, observe: nat -> Option<string>, inputResponse: ModalResponse,
                     result: Result<string, GeminiService.TranslationError>, outputResponse: ModalResponse)
      returns (completion: Option<string>)
      requires inputMonitor.hasDelegate
      modifies inputMonitor
      ensures !old(inputMonitor.isEnabled) || old(inputMonitor.isMacroRunning) ==>
                completion.None? && inputMonitor.log == old(inputMonitor.log) &&
                inputMonitor.pasteboard == old(inputMonitor.pasteboard) &&
                inputMonitor.isMacroRunning == old(inputMonitor.isMacroRunning)
      ensures old(inputMonitor.isEnabled) && !old(inputMonitor.isMacroRunning) ==>
                !inputMonitor.isMacroRunning
      ensures completion.Some? ==>
                result.Success? && completion.value == result.value &&
                inputResponse == AlertFirstButtonReturn && outputResponse == AlertFirstButtonReturn &&
                inputMonitor.pasteboard == completion && |inputMonitor.log| >= 2 &&
                inputMonitor.log[|inputMonitor.log| - 2..] == Monitor.Keystroke(Monitor.KeyV)
      ensures var captured := Monitor.Macro(ax, observe, true, old(inputMonitor.pasteboard)).captured;
              old(inputMonitor.isEnabled) && !old(inputMonitor.isMacroRunning) && captured.Some? &&
              !Text.AllWhitespace(captured.value) && inputResponse == AlertFirstButtonReturn &&
              result.Success? && outputResponse == AlertFirstButtonReturn ==>
                completion == Some(result.value)
      ensures old(inputMonitor.isEnabled) && !old(inputMonitor.isMacroRunning) && completion.None? ==>
                inputMonitor.pasteboard == Monitor.Macro(ax, observe, true, old(inputMonitor.pasteboard)).pasteboard
      ensures inputMonitor.isEnabled == old(inputMonitor.isEnabled)
      ensures inputMonitor.hasDelegate
    {
      completion := None;
      if !inputMonitor.isEnabled || inputMonitor.isMacroRunning {
        inputMonitor.HandleHotKey(ax, observe);
        return;
      }
      ghost var run := Monitor.Macro(ax, observe, true, inputMonitor.pasteboard);
      ghost var before := inputMonitor.log;
      inputMonitor.HandleHotKey(ax, observe);
      Monitor.MacroLock(ax, observe, true, old(inputMonitor.pasteboard));
      if !inputMonitor.isMacroRunning {
        return;
      }
      Monitor.MacroEndsWithDelivery(ax, observe, true, old(inputMonitor.pasteboard));
      assert inputMonitor.log == before + run.actions;
      assert inputMonitor.log[|inputMonitor.log| - 1] == Monitor.Deliver(run.captured.value);
      var text := inputMonitor.log[|inputMonitor.log| - 1].text;
      var steps;
      completion, steps := TriggerTranslation(text, inputResponse, result, outputResponse);
      inputMonitor.Complete(completion);
    }
  }
}
