/**
 * ProgramHandler.java: the list of catalog programs. The static list is the field of one handler
 * object.
 */
module ProgramHandler {
  import opened Wrappers
  import Program
  import IdLists

  class ProgramHandler {
    var programs: seq<Program.Program>

    constructor ()
      ensures programs == []
    {
      programs := [];
    }

    /** `addProgram(program)`: appends exactly one entry */
    method AddProgram(program: Program.Program)
      modifies this
      ensures programs == old(programs) + [program]
    {
      programs := programs + [program];
    }

    /** `getProgram(id)`: the first entry with that id, or null */
    method GetProgram(id: int) returns (r: Option<Program.Program>)
      ensures r == IdLists.FindFirst(programs, Program.Id, id)
    {
      r := IdLists.Find(programs, Program.Id, id);
    }

    /** `deleteProgram(id)`: removes the first entry with that id and returns it, or returns null and changes nothing */
    method DeleteProgram(id: int) returns (removed: Option<Program.Program>)
      modifies this
      ensures removed == IdLists.FindFirst(old(programs), Program.Id, id)
      ensures programs == IdLists.RemoveFirst(old(programs), Program.Id, id)
    {
      programs, removed := IdLists.Remove(programs, Program.Id, id);
    }
  }
}
