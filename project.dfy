/** A project: one circuit, the Arduino sketch and the board settings
    (src/models/project.py). */
module Projects {
  import opened Basics
  import opened Circuits

  class Project {
    var circuit: Circuit
    var arduinoCode: string
    var filename: Option<string>
    var isModified: bool
    var boardType: string
    var boardPort: Option<string>

    /** The dataclass defaults: an empty circuit, no sketch, no file, not
        modified, an Uno board and no port. */
    constructor ()
      ensures fresh(circuit) && circuit.Valid()
      ensures circuit.components == map[] && circuit.connections == [] && circuit.name == "Untitled Circuit"
      ensures arduinoCode == "" && filename == None && !isModified
      ensures boardType == "arduino:avr:uno" && boardPort == None
    {
      circuit := new Circuit();
      arduinoCode := "";
      filename := None;
      isModified := false;
      boardType := "arduino:avr:uno";
      boardPort := None;
    }

    /** The whole state of a project apart from the circuit's contents. */
    function Settings(): (r: (Circuit, string, Option<string>, string, Option<string>))
      reads this
      ensures r.0 == circuit && r.1 == arduinoCode && r.2 == filename && r.3 == boardType && r.4 == boardPort
    {
      (circuit, arduinoCode, filename, boardType, boardPort)
    }

    /** `mark_modified`: the flag is set, nothing else changes. Applying it
        again leaves the project as it is. */
    method MarkModified()
      modifies this
      ensures isModified
      ensures Settings() == old(Settings())
    {
      isModified := true;
    }

    /** `mark_saved`: the flag is cleared, nothing else changes. After
        `mark_modified` it restores the unmodified state. */
    method MarkSaved()
      modifies this
      ensures !isModified
      ensures Settings() == old(Settings())
    {
      isModified := false;
    }
  }

  /** `mark_saved` after `mark_modified` clears the flag again and leaves
      the settings as they were before; each operation applied twice is
      applied once. */
  method MarkingSequence(p: Project)
    modifies p
    ensures !p.isModified && p.Settings() == old(p.Settings())
  {
    p.MarkModified();
    p.MarkModified();
    assert p.isModified;
    p.MarkSaved();
    p.MarkSaved();
  }
}
