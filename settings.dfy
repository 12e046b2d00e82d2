/**
 * The settings editor: a record of named settings and a dirty flag. Every
 * edit writes one key and raises the flag; saving and "Reset to Defaults"
 * both only lower the flag (neither persists nor restores anything).
 */
module Settings {

  /** A setting is either an on/off switch or a named choice. */
  datatype Value = Flag(on: bool) | Choice(name: string)

  /** The initial settings record. */
  const Defaults: map<string, Value> := map[
    "theme" := Choice("dark"),
    "fontSize" := Choice("medium"),
    "animationsEnabled" := Flag(true),
    "emailNotifications" := Flag(true),
    "pushNotifications" := Flag(false),
    "taskReminders" := Flag(true),
    "weeklyDigest" := Flag(true),
    "profileVisible" := Flag(true),
    "shareProgress" := Flag(false),
    "analyticsEnabled" := Flag(true),
    "defaultEnergyLevel" := Choice("medium"),
    "autoArchiveCompleted" := Flag(true),
    "showTaskStats" := Flag(true),
    "priorityAlgorithm" := Choice("smart")]

  /**
   * JavaScript truthiness of `settings[key]`: a missing key is `undefined`
   * (false), a choice is true unless it is the empty string.
   */
  function Truthy(settings: map<string, Value>, key: string): (b: bool)
    ensures key in settings && settings[key].Flag? ==> b == settings[key].on
    ensures key !in settings ==> !b
  {
    if key !in settings then false
    else match settings[key]
      case Flag(on) => on
      case Choice(name) => name != ""
  }

  class SettingsEditor {
    var settings: map<string, Value>
    var hasChanges: bool

    constructor ()
      ensures settings == Defaults && !hasChanges && SaveDisabled()
    {
      settings := Defaults;
      hasChanges := false;
    }

    /** `handleChange(key, value)`: write one key, keep the others, mark dirty. */
    method HandleChange(key: string, value: Value)
      modifies this
      ensures settings == old(settings)[key := value]
      ensures key in settings && settings[key] == value
      ensures forall k :: k in old(settings) && k != key ==> k in settings && settings[k] == old(settings)[k]
      ensures hasChanges && !SaveDisabled()
    {
      settings := settings[key := value];
      hasChanges := true;
    }

    /** A switch's `onClick`: `handleChange(key, !settings[key])`. */
    method Toggle(key: string)
      modifies this
      ensures settings == old(settings)[key := Flag(!Truthy(old(settings), key))]
      ensures hasChanges && !SaveDisabled()
    {
      HandleChange(key, Flag(!Truthy(settings, key)));
    }

    /** `handleSave`: lowers the dirty flag; the settings stay as they are. */
    method HandleSave()
      modifies this
      ensures settings == old(settings) && !hasChanges && SaveDisabled()
    {
      hasChanges := false;
    }

    /**
     * `handleReset`, behind the "Reset to Defaults" button: lowers the dirty
     * flag but leaves the edited settings in place.
     */
    method HandleReset()
      modifies this
      ensures settings == old(settings) && !hasChanges && SaveDisabled()
    {
      hasChanges := false;
    }

    /** `disabled={!hasChanges}` on the Save button. */
    function SaveDisabled(): (d: bool)
      reads this
      ensures d <==> !hasChanges
    {
      !hasChanges
    }
  }

  /**
   * Flipping a switch twice gives the switch its old value back, yet the
   * editor stays dirty and Save stays enabled.
   */
  method ToggleTwice(editor: SettingsEditor, key: string)
    requires key in editor.settings && editor.settings[key].Flag?
    modifies editor
    ensures editor.settings == old(editor.settings)
    ensures editor.hasChanges && !editor.SaveDisabled()
  {
    editor.Toggle(key);
    editor.Toggle(key);
  }

  /**
   * "Reset to Defaults" after an edit does not bring the default back: the
   * edited theme survives and only the dirty flag is cleared.
   */
  method ResetKeepsEdits() returns (editor: SettingsEditor)
    ensures editor.settings == Defaults["theme" := Choice("light")]
    ensures editor.settings != Defaults
    ensures !editor.hasChanges && editor.SaveDisabled()
  {
    editor := new SettingsEditor();
    editor.HandleChange("theme", Choice("light"));
    editor.HandleReset();
    assert editor.settings["theme"] != Defaults["theme"];
  }
}
