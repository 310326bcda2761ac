/**
 * InstalledProgramHandler.java: the list of installed programs. The static list is the field of one handler
 * object.
 */
module InstalledProgramHandler {
  import opened Wrappers
  import InstalledProgram
  import IdLists

  class InstalledProgramHandler {
    var installedPrograms: seq<InstalledProgram.InstalledProgram>

    constructor ()
      ensures installedPrograms == []
    {
      installedPrograms := [];
    }

    /** `addProgram(program)`: appends exactly one entry */
    method AddProgram(program: InstalledProgram.InstalledProgram)
      modifies this
      ensures installedPrograms == old(installedPrograms) + [program]
    {
      installedPrograms := installedPrograms + [program];
    }

    /** `getProgram(id)`: the first entry with that id, or null */
    method GetProgram(id: int) returns (r: Option<InstalledProgram.InstalledProgram>)
      ensures r == IdLists.FindFirst(installedPrograms, InstalledProgram.Id, id)
    {
      r := IdLists.Find(installedPrograms, InstalledProgram.Id, id);
    }

    /** `deleteProgram(id)`: removes the first entry with that id and returns it, or returns null and changes nothing */
    method DeleteProgram(id: int) returns (removed: Option<InstalledProgram.InstalledProgram>)
      modifies this
      ensures removed == IdLists.FindFirst(old(installedPrograms), InstalledProgram.Id, id)
      ensures installedPrograms == IdLists.RemoveFirst(old(installedPrograms), InstalledProgram.Id, id)
    {
      installedPrograms, removed := IdLists.Remove(installedPrograms, InstalledProgram.Id, id);
    }
  }
}
