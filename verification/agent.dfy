/** The agent (agent.py): an employee with a fixed identity, plus the header
    and context shown to it, and the links of the items copied into its
    downloads folder. The agent's employee part is kept as `employee`. */
module Agents {
  import opened Wrappers
  import opened Text
  import opened Actions
  import opened FileSystem
  import opened Employees

  const DownloadsName: string := "agent_downloads"
  const DownloadsPath: string := "agent_downloads/"

  /** The simlink key an item copied into the downloads folder gets. */
  function LinkKey(itemName: string): string
  {
    DownloadsPath + itemName + "/"
  }

  predicate IsDownloads(f: Folder)
  {
    f.name == DownloadsName
  }

  /** Index of the first folder named `agent_downloads`, if any. */
  function DownloadsIndex(fs: seq<Folder>): Option<nat>
  {
    FirstIndex(fs, IsDownloads)
  }

  class Agent {
    const employee: Employee
    const availableActions: seq<string>
    const agentDescription: string
    var header: string
    var shortTermContext: string
    var simlinks: map<string, string>

    constructor (availableActions: seq<string>, agentDescription: string := "An abstract Agent.")
      ensures fresh(employee)
      ensures employee.id == -1 && employee.name == "<agent>" && employee.email == "agent@company.com"
      ensures employee.additionalInformation == "The agent that automates tasks." && employee.tags == []
      ensures employee.IsNew()
      ensures this.availableActions == availableActions && this.agentDescription == agentDescription
      ensures header == "" && shortTermContext == "" && simlinks == map[]
    {
      employee := new Employee(-1, "<agent>", "agent@company.com", "The agent that automates tasks.");
      this.availableActions := availableActions;
      this.agentDescription := agentDescription;
      header := "";
      shortTermContext := "";
      simlinks := map[];
    }

    /** `add_to_download_folder`: links the item, then adds it as a subfolder
        of the first folder named `agent_downloads`, creating and appending
        that folder when there is none. No other folder changes. */
    method AddToDownloadFolder(item: FolderTree)
      modifies this`simlinks, employee`folders, employee.folders
      ensures simlinks == old(simlinks)[LinkKey(item.name) := item.path]
      ensures var found := DownloadsIndex(old(employee.folders));
              found.Some? ==>
                && employee.folders == old(employee.folders)
                && employee.folders[found.value].subfolders == old(employee.folders[found.value].subfolders) + [item]
                && employee.folders[found.value].files == old(employee.folders[found.value].files)
      ensures DownloadsIndex(old(employee.folders)).None? ==>
                && |employee.folders| == |old(employee.folders)| + 1
                && employee.folders[..|old(employee.folders)|] == old(employee.folders)
                && var added := employee.folders[|employee.folders| - 1];
                   && fresh(added)
                   && added.name == DownloadsName && added.path == DownloadsPath
                   && added.files == [] && added.subfolders == [item]
      ensures var found := DownloadsIndex(old(employee.folders));
              forall k :: 0 <= k < |old(employee.folders)| ==>
                (found.None? || old(employee.folders)[k] != old(employee.folders)[found.value]) ==>
                  unchanged(old(employee.folders)[k])
    {
      simlinks := simlinks[LinkKey(item.name) := item.path];
      var fs := employee.folders;
      var folderExists := false;
      var download: Folder? := null;
      var i := 0;
      while i < |fs| && !folderExists
        invariant 0 <= i <= |fs|
        invariant !folderExists ==> download == null && forall k :: 0 <= k < i ==> fs[k].name != DownloadsName
        invariant folderExists ==> 0 < i && DownloadsIndex(fs) == Some(i - 1) && download == fs[i - 1]
      {
        if fs[i].name == DownloadsName {
          folderExists := true;
          download := fs[i];
        }
        i := i + 1;
      }
      if !folderExists {
        download := new Folder(DownloadsPath, DownloadsName);
      }
      download.AddSubfolder(item);
      if !folderExists {
        employee.folders := employee.folders + [download];
      }
    }

    /** The base agent's choice: always to wait. */
    method ChooseAction() returns (c: Command)
      ensures EndsAgentPhase(c) && !c.SetTaskAsCompleted?
    {
      c := Wait;
    }
  }
}
