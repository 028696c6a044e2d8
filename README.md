# create_inventory: a Dafny model

`create_inventory.py` reads a list of Google Compute Engine instance descriptors and writes two files for a Flocker demo cluster:

- `./ansible_inventory`, an Ansible inventory listing with three groups. `flocker_control_service` holds the first instance's address. `flocker_agents` holds every address, in input order. `nodes:children` names the other two groups.
- `./agent.yml`, the Flocker agent configuration. It is a fixed template whose `hostname` is the first instance's address.

The model has six modules:

- `Records` (records.dfy): the typed input records and the projection of each record to an `(ip, name)` pair, which is the list comprehension of `main`.
- `Text` (text.dfy): newline-terminated text. `Unlines` is how the script writes lines. `SplitLines` is how a reader gets them back. Both round trips are proved.
- `Inventory` (inventory.dfy): the lines of the listing and its text. `Group` is a simple reader of the listing: a group is the lines after its header, up to the first empty line. Ansible's own INI reader differs: it skips empty lines and ends a group at the next `[...]` header. Lemmas prove which addresses each group holds under the simple reader.
- `AgentYml` (agent_yml.dfy): the template and a model of Python's `%` operator for a single string argument. The lemmas prove that filling the template gives its fixed lines with the address as the hostname.
- `CreateInventory` (create_inventory.dfy): `Generate`, which gives the effect of one run as a function of its input, including the error paths. It also holds the on-disk effect of a run (`AfterRun`), an `OutputFile` class standing in for a file opened with mode `'w'`, and the imperative `Run`, `WriteInventory` and `WriteAddresses`. These issue the same `write` calls in the same order as the script, with the same loop. They are proved to leave exactly what `Generate` says.
- `Wrappers` (wrappers.dfy): `Option` and `Result`.

Error paths follow the code, not an idealised reading of it:

- A record whose `networkInterfaces` or `accessConfigs` list is empty stops the comprehension. This happens before either file is opened, so both files keep their old contents.
- An empty input list passes the comprehension. The inventory file is then opened, which truncates it, and its first header is written. Only then does `instances[0]` fail. Leaving the `with` block closes the file, so it holds `[flocker_control_service]\n`. `agent.yml` is never opened.

On an empty list the model takes the code's order of operations: the listing is opened and its first header written before the failing lookup.

## Model

| member | source | states |
|---|---|---|
| Records.Project | create_inventory.py:19-25 | The projection succeeds exactly when every record has `networkInterfaces[0].accessConfigs[0]`. On success it has one pair per record, in order, and pair k is record k's `natIP` and `name`. Otherwise it fails at the first record without an address. |
| Records.ProjectIgnoresNames | create_inventory.py:19-25 | Records that differ only in `name` project to the same failure index, or to the same addresses in the same order. |
| Inventory.InventoryLines | create_inventory.py:28-37 | The listing has n + 8 lines in this order: the control header, the first address, an empty line, the agents header, the n addresses verbatim and in order, an empty line, `[nodes:children]`, `flocker_control_service`, `flocker_agents`. |
| Inventory.RenderInventory | create_inventory.py:28-37 | The listing text of a non-empty list is non-empty and ends with a newline. |
| Inventory.StartsWithControlHeader | create_inventory.py:27-29 | The full listing starts with the control header's line, which is all that a run on an empty list leaves in the file. |
| Inventory.RenderInventoryParts | create_inventory.py:28-37 | The listing text is its four opening lines, then the addresses one per line, then its four closing lines. |
| Inventory.InventoryText | create_inventory.py:28-37 | When no address holds a newline, the listing text read back line by line is exactly its n + 8 lines. It ends in a newline. |
| Inventory.ControlGroupIsFirst | create_inventory.py:28-29 | When the first address is non-empty, the `flocker_control_service` group holds exactly one line, that address. |
| Inventory.AgentsGroupIsAll | create_inventory.py:31-33 | When no address is empty and the first is not the agents header itself, the `flocker_agents` group holds every address once, in input order, the control address included. |
| Inventory.NodesGroupIsChildren | create_inventory.py:35-37 | When no address is the line `[nodes:children]`, that group holds exactly `flocker_control_service` and `flocker_agents`. Both groups' headers are in the listing. |
| Inventory.ChildrenNameHeaders | create_inventory.py:28-37 | The two children named under `nodes` are the names inside the control and agents headers. |
| AgentYml.TemplateLines | create_inventory.py:6-15 | The lines of `_AGENT_YML` between its triple quotes, starting with the empty line after the opening quotes. None of them holds a newline, so the template is exactly these lines, each followed by one. |
| AgentYml.AgentYmlTemplate | create_inventory.py:6-15 | `_AGENT_YML` itself: the template lines, each followed by a newline. It has no contract of its own. TemplateAroundPlaceholder and RenderAgentYml state what filling it gives. |
| AgentYml.Format | create_inventory.py:40 | `t % arg` with one string argument, `used` saying whether a conversion has consumed it. If the argument is still unconsumed, success needs a percent sign in `t`. Text with none fails with "not all arguments converted". |
| AgentYml.FormatPlain | create_inventory.py:40 | Under `%`, text without a percent sign stays as it is once the argument has been consumed. Otherwise it fails with "not all arguments converted". |
| AgentYml.FormatPlainPrefix | create_inventory.py:40 | Under `%`, a prefix without a percent sign is copied in front of whatever the rest formats to. |
| AgentYml.FormatSinglePlaceholder | create_inventory.py:40 | `(head + "%s" + tail) % arg`, with no other percent sign, is `head + arg + tail`. |
| AgentYml.FormatPlaceholderLine | create_inventory.py:40 | Formatting newline-terminated lines, where one line ends in `%s` and no other `%` occurs, replaces that `%s` with the argument and leaves every other line unchanged. |
| AgentYml.TemplateAroundPlaceholder | create_inventory.py:6-15 | The template has one placeholder, at the end of the `hostname` line. No other line has a percent sign. Filling it gives the file's lines. |
| AgentYml.RenderAgentYml | create_inventory.py:40 | The file content for an address is what `_AGENT_YML % ip` evaluates to. Python raises nothing here. |
| AgentYml.AgentYmlText | create_inventory.py:6-15 | For an address without a newline, the file read back has 9 lines: a leading empty line, `version: 1`, an empty line, `control-service:`, `  hostname: <ip>`, `  port: 4524`, an empty line, `dataset:`, `  backend: gce`. |
| CreateInventory.Generate | create_inventory.py:18-40 | A run succeeds exactly when the input is non-empty and every record has an address, and then both files are written. The input is empty exactly when the run fails on `instances[0]`; then the inventory holds only its first header and `agent.yml` is not opened. A record without an address fails the run at the first such record, and neither file is opened. |
| CreateInventory.Addresses | create_inventory.py:21 | For an input whose records all have one, gives record k's `natIP` at position k. |
| CreateInventory.GenerateFromInstances | create_inventory.py:27-40 | When the projection gives the instances, a run writes the listing of their addresses and the configuration for the first one. With no instances it stops after the first header. |
| CreateInventory.GeneratedFrom | create_inventory.py:27-40 | A successful run writes the listing of the records' addresses, and the configuration filled with the first record's address. |
| CreateInventory.InventoryLayout | create_inventory.py:28-37 | After a successful run, the inventory reads back as exactly n + 8 lines. Line 1 is record 0's address, line 4 + k is record k's address, and the rest is fixed. |
| CreateInventory.InventoryGroups | create_inventory.py:28-37 | After a successful run whose addresses are non-empty, newline-free, not the nodes header, and whose first address is not the agents header, read with `Group`: the control group is record 0's address, the agents group is every record's address in order, and the nodes group names the other two. |
| CreateInventory.AgentYmlContent | create_inventory.py:39-40 | After a successful run, `agent.yml` is `_AGENT_YML % natIP(record 0)`. It reads back as the fixed lines with that hostname. |
| CreateInventory.NamesDoNotMatter | create_inventory.py:22 | Inputs that differ only in names give the same run: the same files and the same error. |
| CreateInventory.ScenarioLines | create_inventory.py:28-37 | For two addresses, the listing is control header, ip1, empty line, agents header, ip1, ip2, empty line, nodes header, and the two group names. |
| CreateInventory.TwoInstanceScenario | create_inventory.py:18-40 | For two records with addresses ip1 and ip2 (for example 10.0.0.1 and 10.0.0.2), the run succeeds. The control group is ip1, the agents are ip1 then ip2, and the hostname is ip1. |
| CreateInventory.Overwrite | create_inventory.py:27-40 | A file opened with mode `'w'` ends up holding what was written to it, and it exists afterwards. A file the run never opens keeps its old state, existing or not. |
| CreateInventory.AfterRun | create_inventory.py:18-40 | The disk after a run. A record without an address leaves both files as they were. An empty list leaves the listing holding only its first header and leaves `agent.yml` as it was. A successful run leaves both files present. |
| CreateInventory.RerunIsIdempotent | create_inventory.py:27-40 | Running again on the same input leaves both files as the first run left them. |
| CreateInventory.SuccessfulRunOverwritesBoth | create_inventory.py:27-40 | Both files are opened with mode `'w'`. After a successful run, both exist and their content depends only on the input, not on what they held before. |
| CreateInventory.OutputFile.OpenForWriting | create_inventory.py:27 | `open(path, 'w')` creates or truncates the file and leaves it open. |
| CreateInventory.OutputFile.Write | create_inventory.py:28 | `write` appends its argument to the open file's content. |
| CreateInventory.OutputFile.Close | create_inventory.py:37 | Leaving the `with` block closes the file. |
| CreateInventory.WriteAddresses | create_inventory.py:32-33 | The loop appends one line per instance, its address, in order. |
| CreateInventory.InventoryWrites | create_inventory.py:28-37 | The eight fixed `write` arguments, with the loop's n lines after the fourth, concatenated, are the listing text. |
| CreateInventory.WriteInventory | create_inventory.py:27-37 | The `with` block leaves the file closed. On an empty list the file holds only the control header and the error is `instances[0]`'s failure. Otherwise the file holds the listing of the instances' addresses. |
| CreateInventory.WriteAgentYml | create_inventory.py:39-40 | The second `with` block leaves `agent.yml` closed and holding `_AGENT_YML % ip`. |
| CreateInventory.Run | create_inventory.py:18-40 | `main` ends with exactly `Generate`'s error. Both files end as `AfterRun` says: written by the run where it opens them, unchanged otherwise. Both are closed at the end. |
| Text.SplitUnlines | create_inventory.py:28-37 | Lines written each followed by a newline, none holding a newline of its own, read back as the same lines. |
| Text.UnlinesSplit | create_inventory.py:28-37 | A text that is empty or ends in a newline is exactly its lines, each written with a newline. |

## Left out

- The `__main__` block (create_inventory.py:43-47) is not modelled. It checks `sys.stdin.isatty()`, exits with "Must pipe input into this script.", and parses standard input with `json.load`. Terminal and stream I/O and the JSON parser are outside the model; its input is already-parsed records.
- Python's `KeyError` for a missing `name`, `networkInterfaces`, `accessConfigs` or `natIP` key is not modelled. The records are typed, and those fields always exist. A non-string `natIP` (which would make `+ '\n'` raise) is excluded by the types too. The remaining lookup failure, an empty `networkInterfaces` or `accessConfigs` list, is modelled as `MissingAddress`.
- Real file-system behaviour is left out. Each file is an in-memory `OutputFile`. Buffering, text encoding, newline translation, permission errors and failed writes are not modelled, and neither is a crash part-way through a write.
- AgentYml.Format: covers only the bare `%s` and `%%` directives of Python's `%` operator with one string argument. Every other directive gives None in the model, even those Python accepts, such as `%r` or `%s` with a flag, width or precision. That None is a gap in the model, not a Python exception. The template uses only a bare `%s`.
- Inventory.InventoryText: holds only for addresses without a newline. The script writes an address with a newline verbatim, and it reads back as two lines.
- Inventory.AgentsGroupIsAll: holds only when no address is empty and the first is not `[flocker_agents]`. An empty address ends the group early for `Group`.
- Inventory.NodesGroupIsChildren: holds only when no address is `[nodes:children]`. Otherwise `Group` finds that address first.
- AgentYml.AgentYmlText: holds only for an address without a newline, for the same reason as InventoryText.
- CreateInventory.InventoryGroups: holds only when every address is non-empty, holds no newline and is not `[nodes:children]`, and the first address is not `[flocker_agents]`. The script writes any address verbatim, so an address that breaks these conditions reads back as a different grouping. The groups are those of the simple reader `Group`; Ansible's INI reader is not modelled.
- CreateInventory.InventoryLayout: holds only for addresses without a newline, for the same reason.
- CreateInventory.AgentYmlContent: states the line-by-line reading only for a first address without a newline. The equality with `_AGENT_YML % ip` holds for any address.
- CreateInventory.TwoInstanceScenario: stated for any two addresses without a newline rather than the literal 10.0.0.1 and 10.0.0.2.
- CreateInventory.RerunIsIdempotent: states idempotence of the on-disk effect. That the same input always gives the same output needs no lemma, because `Generate` is a function.
