# Verified model of the NETGEAR Plus provider's protocol cores

Dafny model and proofs of the parts of the provider that decide what a switch ends up
with: the text-config stack of the GS108Tv2 driver, the VLAN convergence planner, the TFTP
block transfer, the NSDP client against its agent, and the FMv2 backup format.
`dafny verify dfyconfig.toml` checks everything.

## What is modelled

**Text configs** (`Text`, `TextCfg`, `TextEdit`, `TextLaws`, `EditFrame`, `EditLaws`, `Sections`). A file is
its lines. `TextCfg` gives the stack algorithm that pairs `exit` lines with block labels and proves
it against an independent definition: a forward scan for the exit of one label. The editor is a
class; each mutation is proved against a function on lines. `EditFrame` says what a body splice
keeps, `Sections` and `RenderFrame` carry that through any number of splices.

**The two codecs** (`Grammar`, `Codec`, `Render`, `BodyFacts`, `Declarations`, `Readings`, `RenderFrame`,
`RenderLaws`, `RoundTrip`, `PortTrip`, `NonInterference`, `Stability`, `Factory`). What a body says is a sum of
what its lines say. `Declarations` is about lines that declare several VLANs, the form a switch serves; `Readings`
says line by line, port by port and VLAN by VLAN what is decoded. Decode is the code's loops proved
against that sum; the renders are the code's splices. A file is well-formed when its nine managed
sections are there and plain: the first occurrence of each is closed by its own `exit` with no
other block label in between. `Factory` has such files. The main result is an equivalence: of the states that
`validateRenderable` lets through, exactly those come back from decode that have no port tagged in
VLAN 1 and, when VLAN 1 is present, some port untagged in it.

**Staging** (`Apply`). The two applies and the verify loop, over a script of what the switch answers and
a clock that only moves forward. What an outcome promises is stated on the decoded files themselves.

**Planning** (`VlanState`, `VlanPlan`, `PlanLaws`, `Transition`, `Convergence`). Plans are cut down to single wire
writes over two channels, HTTP and NSDP. The current state is any covering read of a live switch,
with PVIDs that may name missing VLANs: what was safe stays safe and kept memberships never lapse at
any write, everything is safe once the PVIDs have moved, and the plan always ends in the desired state.

**NSDP** (`Bits`, `Wire`, `Agent`, `AgentLaws`, `Session`, `Client`, `VlanTables`, `SwitchRead`, `Transport`,
`Overfull`). Frames are bytes; each end reads them into 4096 of them. The agent is a class with its nonce and
tables; the client is a class with its sequence number and token; the link between them loses requests, loses,
delays or repeats replies, and mixes in packets of other managers and agents. On top of the session the
planner's ops become SETs, the tables refine the abstract switch, and
`Transport.NsdpSwitchTransport.ApplyVLANState` puts all of it together.

**TFTP** (`Tftp`, `TftpSafety`, `TftpGet`, `TftpProgress`, `TftpGetProgress`). Each of the four endpoint loops is
proved to follow a step machine. For safety two machines run over a channel on which any packet ever sent can
arrive at any time; for progress, over one on which each copy arrives once or is lost. A transfer ends well when
fewer windows fail than there are retries, with one exception: nobody repeats the last acknowledgement.

**FMv2 backups** (`Backup`). Parser, checksum and their inverse.

## Where code and comments part

- `internal/client/gs108tv2/apply.go:78-86` promises that a port apply over vlan lines the codec refuses
  skips the VLAN check. The loop still treats the decode error as transient
  (`internal/client/gs108tv2/apply.go:323-330`), so such an apply can only run into its deadline:
  `Apply.ForeignGrammarIsNeverStaged`. A concrete file is the factory config with `vlan x` in its
  VLAN database, `Factory.PortOneOffIsNeverStaged`.
- A body splice keeps the block's own exit exactly when the replaced region was balanced
  (`EditFrame.OwnExitKeptIffBalanced`); `Factory.UnbalancedSplice` is a block that loses it.
- `internal/client/gs108tv2/codec.go:238-249` rejects every membership of an undeclared VLAN, while the
  render never declares VLAN 1. A state with a port tagged in VLAN 1 passes the guard and can never
  verify: `RoundTrip.IssuesAfter`, `Apply.ServedVlanUpload`.
- `internal/nsdp/nsdptest/nsdptest.go:412-415` says an attribute GET walks with a truncated tail. It walks
  cleanly, with one more entry of tag 0 (`Wire.WalkAttrRequest`); the two kinds of GET are still never
  confused.
- Both ends of NSDP read a datagram into 4096 bytes (`internal/nsdp/client.go:657`,
  `internal/nsdp/nsdptest/nsdptest.go:388`) and take what is cut off for not there. A SET value of 4049
  bytes is acknowledged and dropped (`Session.ValueAppliedIff`, `Session.LongNameIsLost`). Of more than
  508 VLANs the first 508 are read without an error, so that an apply can end well and leave a VLAN
  behind that it should delete: `SwitchRead.ReadIsWholeIff`, `Overfull.LastVlanIsLeft`.
- TFTP block numbers are 16 bits and wrap. Uploads of 65535 full blocks or more and downloads of 65536
  or more lose their guarantee: `TftpSafety.PutIsExactIff`, `TftpGet.GetIsExactIff`.

## Model

| member | source | states |
|---|---|---|
| TextCfg.PairSectionExits | internal/fastpath/textcfg.go:205-225 | The one-pass stack matching yields, for every block label, exactly the exit an independent forward scan finds for it, and nothing else. |
| TextCfg.ParseTextConfig | internal/fastpath/textcfg.go:128-184 | Empty input is the only error; otherwise the sections are all label lines in file order, each with its label and editable span. |
| TextCfg.ComputeSectionSpans | internal/fastpath/textcfg.go:230-252 | A span ends before the own exit or before the first interface label in front of it, without an exit before the next section label or at the end of the file. |
| TextCfg.FirstNestedInterface | internal/fastpath/textcfg.go:256-264 | The first interface label of a stretch, or -1 when there is none. |
| TextCfg.FindSection | internal/fastpath/textcfg.go:268-275 | The first section with the label, none exactly when no label line carries it. |
| TextCfg.SectionBody | internal/fastpath/textcfg.go:285-300 | The span of the first section with the label without blanks, annotations and exits. |
| TextCfg.CanonicalBytes | internal/fastpath/textcfg.go:316-326 | The file without its up-time lines. |
| TextCfg.UptimeGoes | internal/fastpath/textcfg.go:308-326 | A line that starts with the three words of the up-time annotation goes, whatever follows; the other `!System` annotations, and those words without the mark, stay. |
| TextCfg.LabelLinesAscend | internal/fastpath/textcfg.go:139-165 | The sections found are exactly the label lines, ascending. |
| TextCfg.ScanConcat | internal/fastpath/textcfg.go:205-225 | Matching is compositional: scanning two stretches is scanning one after the other with the depth the first leaves. |
| TextLaws.BlockLabels | internal/fastpath/textcfg.go:186-199 | Blocks are configure, lineconfig, vlan database and every interface label: they have an exit of their own. |
| TextLaws.FlatLabelsS | internal/fastpath/textcfg.go:336-360 | The labels of snmp-server, sntp and the spanning-tree name are flat: no exit closes them. |
| TextLaws.FlatLabelsI | internal/fastpath/textcfg.go:336-360 | So are those of ip, network mgmt_ and no sntp client mode. |
| TextLaws.FlatLabelsU | internal/fastpath/textcfg.go:336-360 | So are those of users passwd, authentication login and voip. |
| TextLaws.PlainHeader | internal/fastpath/textcfg.go:339-360 | The header and flow-control lines are content. |
| TextLaws.PlainShutdown | internal/fastpath/textcfg.go:339-360 | So are shutdown lines. |
| TextLaws.PlainNoFlow | internal/fastpath/textcfg.go:339-360 | So are `no flow control` lines. |
| TextLaws.PlainPVID | internal/fastpath/textcfg.go:339-360 | So are PVID lines, although they start like the VLAN database. |
| TextLaws.FlatLabelsB | internal/fastpath/textcfg.go:336-360 | The three block labels with more behind them open no block. |
| TextLaws.SkipsAndExits | internal/fastpath/textcfg.go:285-300 | Blanks and annotations, and nothing else, are skipped; an exit is the bare word. |
| TextLaws.ContentIs | internal/fastpath/textcfg.go:285-300 | Content is every line but blanks, annotations and exits, in order. |
| TextLaws.HeaderIs | internal/fastpath/textcfg.go:135-144 | The header is the first line without its carriage return. |
| TextLaws.RegionIs | internal/fastpath/textcfg.go:230-264 | A block ends at its exit or the first interface label in front of it, any other section at the next label or the end of the file, and no such label lies in between. |
| EditLaws.BlocksNestOrDisjoint | internal/fastpath/textcfg.go:205-225 | Two matched label and exit pairs are nested or disjoint, and no exit closes two blocks. |
| EditLaws.BodiesHoldNoInterface | internal/fastpath/textcfg.go:230-264 | The editable body of a matched block holds no interface label line. |
| EditLaws.HeaderIsNoLabel | internal/fastpath/textcfg.go:339-360 | A first line with the 0x4e47 magic is never a section label. |
| EditLaws.EditsKeepHeader | internal/fastpath/textedit.go:79-167 | Over any sequence of edits, failed ones included, a headed file keeps its first line, and each splice stays in bounds. |
| EditLaws.RunEdits | internal/fastpath/textedit.go:79-206 | The editor object runs any sequence of edits without leaving its parsed view behind, never empties a headed file, and Render then succeeds. |
| EditLaws.InsertThenDelete | internal/fastpath/textedit.go:94-152 | Inserting a fresh block section with an inert body and deleting it restores the lines of the file exactly. |
| TextEdit.TextConfigEditor.constructor | internal/fastpath/textedit.go:55-67 | The editor starts with the lines of the file and its parsed view. |
| TextEdit.TextConfigEditor.ReplaceSectionBody | internal/fastpath/textedit.go:79-86 | Exactly the body region of the first section with the label becomes the double-spaced body and the parsed view follows; an unknown label changes nothing. |
| TextEdit.TextConfigEditor.InsertSection | internal/fastpath/textedit.go:94-125 | The new block goes behind the anchor section and the blank lines after it; empty, existing or unanchored labels change nothing. |
| TextEdit.TextConfigEditor.DeleteSection | internal/fastpath/textedit.go:134-152 | The section goes with its exit and one blank line; protected and unknown labels change nothing. |
| TextEdit.TextConfigEditor.Render | internal/fastpath/textedit.go:159-167 | The joined lines, or an error when the first line lost the magic. |
| TextEdit.TextConfigEditor.Sync | internal/fastpath/textedit.go:196-206 | The parsed view is that of the working lines, or the file became empty and an error says so. |
| TextEdit.SpliceRegion | internal/fastpath/textedit.go:232-238 | What is before, the region, what is after. |
| TextEdit.DoubleSpacedBody | internal/fastpath/textedit.go:220-227 | A blank line, then every body line followed by a blank line. |
| TextEdit.SpacedAt | internal/fastpath/textedit.go:220-227 | Line by line: blanks at the even offsets, body line k at offset 2k + 1. |
| TextLaws.InsertPlace | internal/fastpath/textedit.go:94-125 | A section goes in behind the anchor's exit or body and exactly the blank lines there: label, spaced body, exit, blank; nothing else changes. |
| TextLaws.InsertRefused | internal/fastpath/textedit.go:94-125 | Insertion is refused exactly for an empty label, one that is there or a missing anchor, checked in this order. |
| TextLaws.DeletePlace | internal/fastpath/textedit.go:134-152 | A section goes from its label through its exit or body, with one blank line if one follows; exactly vlan database and configure are protected. |
| TextLaws.BlankIs | internal/fastpath/textedit.go:94-152 | A blank line is one of white space only. |
| EditFrame.RegionReplaced | internal/fastpath/textedit.go:79-86 | After a splice of inert lines into a matched block, its label stays matched and its content is exactly the lines put in. |
| EditFrame.PairingKept | internal/fastpath/textedit.go:79-86 | When the replaced region was balanced, every line outside it keeps its exit, shifted by the length change behind the splice. |
| EditFrame.OwnExitKeptIffBalanced | internal/fastpath/textedit.go:79-86 | The spliced block keeps its own exit if and only if the replaced region was balanced. |
| Factory.UnbalancedSplice | internal/fastpath/textedit.go:79-86 | A concrete matched block with an unbalanced region that loses its own exit by a splice. |
| EditFrame.DisjointKept | internal/fastpath/textedit.go:79-86 | Every matched block disjoint from the splice keeps its region and content, unbalanced splices included. |
| EditFrame.SpacedContent | internal/fastpath/textedit.go:220-227 | Reading a double-spaced body of inert lines gives the body back. |
| Sections.SelfSpliced | internal/fastpath/textedit.go:79-86 | A splice leaves its own plain section plain, with the new region and content. |
| Sections.OtherSpliced | internal/fastpath/textedit.go:79-86 | A splice leaves every other plain section plain, region and content as they were. |
| RenderFrame.SplicedAll | internal/client/gs108tv2/codec.go:435-459 | Any number of splices over distinct plain sections: each listed one gets its body, every other one keeps its own, whatever the index shifts. |
| RenderFrame.VlanRenderedBodies | internal/client/gs108tv2/codec.go:435-459 | The nine VLAN splices succeed on every well-formed file, keep it well-formed, and set exactly the nine managed bodies. |
| Grammar.DeclareLineRead | internal/client/gs108tv2/codec.go:337-355 | A written declaration is read back as that one VLAN. |
| Grammar.MembershipLineRead | internal/client/gs108tv2/codec.go:360-385 | A written membership is read back as that port, VLAN and membership, and never as a declaration. |
| Grammar.PVIDLineRead | internal/client/gs108tv2/codec.go:389-398 | A written PVID line is read back as that PVID. |
| Declarations.CombinedLineRead | internal/client/gs108tv2/codec.go:330-355 | For every non-empty list of ids, the line that declares them all, joined by commas, is read as exactly these ids in order, without an error. |
| Declarations.TenAndNinetyNine | internal/client/gs108tv2/codec.go:332-333 | The line `vlan 10,99` declares VLANs 10 and 99. |
| Declarations.CombinedSays | internal/client/gs108tv2/codec.go:150-156 | Anywhere in a database, a combined line says what one line per VLAN says. |
| Declarations.RegroupedSays | internal/client/gs108tv2/codec.go:140-175 | A database that declares the same VLANs, grouped and placed in any way between the same other lines, has the same facts. |
| Declarations.ServedDecodes | internal/client/gs108tv2/codec.go:119-261 | So the whole file decodes to the same state, the same settings and the same errors. |
| Readings.IDIs | internal/client/gs108tv2/codec.go:344-351 | An id is a number above 0. |
| TextLaws.SignedDigit | internal/client/gs108tv2/codec.go:348-351 | Numbers may have one sign; an empty word, a lone sign, blanks and letters make none. |
| TextLaws.LeadingZero | internal/client/gs108tv2/codec.go:348-351 | Leading zeros do not matter. |
| TextLaws.NumberRange | internal/client/gs108tv2/codec.go:348-351 | A written number is read back if and only if it fits 64 bits. |
| TextLaws.Spaces | internal/client/gs108tv2/codec.go:145-149 | Which characters are white space, with their neighbours that are not. |
| TextLaws.TrimIs | internal/client/gs108tv2/codec.go:145-149 | Trimming takes the white space off both ends, all of it and nothing else. |
| TextLaws.FieldsAre | internal/client/gs108tv2/codec.go:150-160 | The words of a line are the runs of other characters between white space. |
| Readings.VlanLineIs | internal/client/gs108tv2/codec.go:145-149 | The lines of the VLAN codec are those that start with `vlan `. |
| Readings.DeclarationIs | internal/client/gs108tv2/codec.go:337-355 | A line is a declaration if and only if it has two words, the first is vlan and every part of the second is an id. |
| Readings.MembershipIs | internal/client/gs108tv2/codec.go:360-385 | A line is a membership if and only if its five words have this shape, and it says what is in them. |
| Readings.PVIDIs | internal/client/gs108tv2/codec.go:389-398 | The same for a PVID line and its three words. |
| Readings.PortOutsideRangeRead | internal/client/gs108tv2/codec.go:157-165 | A membership of a port beyond 8 is one error and nothing else. |
| Readings.NoFlowControlRead | internal/client/gs108tv2/grammar.go:104-112 | The line `no flow control` turns flow control off. |
| Readings.DatabaseLineIs | internal/client/gs108tv2/codec.go:144-175 | For every database line: whether it is foreign, declares, lists a member, or is an error, and with which text and reason. |
| Readings.InterfaceLineIs | internal/client/gs108tv2/codec.go:185-221 | For every interface line: whether it is foreign, passed through, a setting, a PVID or an error. |
| Readings.LastLineWins | internal/client/gs108tv2/codec.go:185-221 | The last PVID line and the last flow-control line of a section win, and errors come in order. |
| BodyFacts.PortLinesFacts | internal/client/gs108tv2/grammar.go:94-112 | The written shutdown and flow-control lines are read back as the settings they were written for. |
| BodyFacts.ForeignIfaceFacts | internal/client/gs108tv2/codec.go:406-426 | The foreign lines of an interface body carry its settings and no PVID. |
| BodyFacts.PassFacts | internal/client/gs108tv2/codec.go:185-222 | The passed-through lines of an interface body carry its PVID and its grammar errors, and no setting. |
| BodyFacts.GeneratedFacts | internal/client/gs108tv2/codec.go:473-492 | The generated database body declares exactly the VLANs other than 1 and lists exactly the written memberships. |
| Codec.DecodeTextConfig | internal/client/gs108tv2/codec.go:119-261 | State, settings, foreign lines, passed-through lines and the ordered list of grammar errors of the nine managed bodies; it always completes. |
| Codec.DecodeDatabase | internal/client/gs108tv2/codec.go:140-175 | The line-by-line facts of the database body: foreign lines, declared VLANs, members, errors. |
| Codec.DecodeInterface | internal/client/gs108tv2/codec.go:177-222 | The PVID, settings, foreign and passed-through lines and errors of one interface body; the last PVID and flow line win. |
| Readings.SettingsAre | internal/client/gs108tv2/codec.go:177-222 | A port is on unless some line shuts it, has no flow control and PVID 1 unless a line says something else, and everything that has no grammar at its default. |
| Codec.InferVLAN1 | internal/client/gs108tv2/codec.go:298-328 | VLAN 1 as implied by PVIDs and explicit memberships, kept when declared or when a port is untagged in it. |
| Codec.InferAccessVLANMembershipFromPVID | internal/client/gs108tv2/codec.go:269-285 | A port without an entry in the VLAN of its PVID becomes untagged there; nothing else changes. |
| Codec.RealizeMembers | internal/client/gs108tv2/codec.go:236-250 | Explicit memberships of declared VLANs are set, in order; each one of an undeclared VLAN is an error. |
| Readings.DecodedVlanIs | internal/client/gs108tv2/codec.go:224-285 | With a vlan line in the database a VLAN other than 1 is there if and only if it is declared; a listed port is in it as its last line says, an unlisted one is in it, untagged, exactly when it is its PVID. |
| Readings.Decoded1Is | internal/client/gs108tv2/codec.go:287-328 | VLAN 1 is there if and only if it is declared or some port is untagged in it, and then holds every port. |
| Readings.CleanIff | internal/client/gs108tv2/codec.go:137-257 | A file decodes without an error if and only if its database is there, each of its lines and of the interface lines is read, and each listed membership is one of a declared VLAN. |
| Readings.ErrorOrder | internal/client/gs108tv2/codec.go:137-260 | The error is the first of: a missing database, a bad database line, a bad interface line by port, a membership of an undeclared VLAN. |
| Render.CaptureForeign | internal/client/gs108tv2/codec.go:406-426 | For each managed section exactly the lines that are no vlan lines, in order. |
| Readings.ForeignAreKept | internal/client/gs108tv2/codec.go:406-426 | What the VLAN render carries over is every line that is no vlan line, in order. |
| Readings.PassedAreKept | internal/client/gs108tv2/codec.go:185-221 | What the port render carries over is every line that is no setting, in order. |
| Render.ForeignLinesAreDecoded | internal/client/gs108tv2/codec.go:406-426 | The capture and the decode agree on which lines are foreign. |
| Render.GenerateVlanDatabaseBody | internal/client/gs108tv2/codec.go:473-492 | Declarations and memberships in ascending VLAN and port order, VLAN 1 and its untagged ports by absence. |
| Render.RenderVLANState | internal/client/gs108tv2/codec.go:435-459 | The editor ends up with exactly the nine spliced bodies, or with an error when a section is missing or the header is gone. |
| Readings.InterfaceAfterVlans | internal/client/gs108tv2/codec.go:435-459 | After a VLAN render an interface section holds what was there but for vlan lines, and then its PVID line unless the PVID is 1. |
| RenderLaws.ThreeVLANsWritten | internal/client/gs108tv2/codec.go:473-511 | The database and interface lines of a concrete state of three VLANs, word for word. |
| RenderLaws.DefaultRendersFactory | internal/client/gs108tv2/codec.go:473-492 | The factory state rendered into the factory file is that file, byte for byte. |
| Render.ValidateRenderable | internal/client/gs108tv2/codec.go:539-567 | Accepts exactly the valid 8-port states in which every port is untagged in the VLAN of its PVID and in no other; each error names a real fault. |
| RenderLaws.RenderableIff | internal/client/gs108tv2/codec.go:539-567 | The guard in terms of the map entries: eight ports, each untagged in the VLAN of its PVID and in no other. |
| Render.ValidatePortSettings | internal/client/gs108tv2/portcodec.go:83-105 | Accepts exactly the maps that give every port and keep unsupported attributes at their defaults; an error names the first port with such an attribute, and the attribute. |
| RenderLaws.UnsupportedIs | internal/client/gs108tv2/portcodec.go:83-105 | A missing port comes first, then priority, ingress rate and egress rate. |
| Render.NormalizePortSettings | internal/client/gs108tv2/portcodec.go:109-118 | Missing ports get defaults, ports out of range are dropped. |
| Apply.MissingPortIs | internal/client/gs108tv2/portcodec.go:34-56 | The settings of a port that is not mentioned, written out. |
| Render.RenderPortSettings | internal/client/gs108tv2/portcodec.go:127-147 | The editor ends up with the passed-through lines and the generated lines in every interface section that is there, the others untouched; it fails if and only if a splice finds its section gone or the file has no header. |
| Readings.InterfaceAfterSettings | internal/client/gs108tv2/portcodec.go:127-147 | After a port render an interface section holds what was there but for settings, then shutdown for a disabled port and flow control for a port that has it. |
| Render.EqualPortSettings | internal/client/gs108tv2/grammar.go:152-163 | True exactly when the two maps are equal. |
| RoundTrip.RenderedStateDecodes | internal/client/gs108tv2/codec.go:119-328 | For every well-formed file and every renderable state: the render succeeds, settings stay as they were, and decode gives back a state Equal to the rendered one without error if and only if no port is tagged in VLAN 1 and VLAN 1, if present, has an untagged port. |
| RoundTrip.DecodesBack | internal/client/gs108tv2/codec.go:435-492 | The same equivalence on the managed bodies, through default-by-absence and both inferences. |
| RoundTrip.IssuesAfter | internal/client/gs108tv2/codec.go:238-249 | A rendered file decodes without grammar error if and only if no port is tagged in VLAN 1. |
| RoundTrip.SettingsAfter | internal/client/gs108tv2/codec.go:435-459 | The VLAN render leaves every decoded port setting as it was. |
| RoundTrip.FactoryState | internal/client/gs108tv2/codec.go:224-234 | A state that renders without any vlan line is the factory state: VLAN 1 with every port untagged. |
| RoundTrip.TaggedInVLAN1IsLost | internal/client/gs108tv2/codec.go:238-249 | A concrete state that passes the guard and does not come back: a port tagged in VLAN 1. |
| RoundTrip.EmptyVLAN1IsLost | internal/client/gs108tv2/codec.go:294-297 | A concrete state that passes the guard and does not come back: a VLAN 1 that ignores every port. |
| PortTrip.PortRenderedBodies | internal/client/gs108tv2/portcodec.go:127-147 | The port render keeps a tidy file tidy, the same sections present, and sets exactly the present interface bodies. |
| NonInterference.RenderedPortsDecode | internal/client/gs108tv2/portcodec.go:127-147 | The port render leaves the decoded VLAN state and every grammar error as they were, and decodes to exactly the requested settings if and only if ports without a section are asked for defaults. |
| NonInterference.RendersCommute | internal/client/gs108tv2/apply.go:188-259 | Both renders in either order decode to the same VLAN state, the same errors and the requested settings. |
| Stability.VlanRenderIsStable | internal/client/gs108tv2/codec.go:435-459 | Rendering a state into its own rendered file gives the same file, byte for byte. |
| Stability.PortRenderIsStable | internal/client/gs108tv2/portcodec.go:127-147 | The same for the port render. |
| Stability.CanonicalVlanRender | internal/fastpath/textcfg.go:316-326 | The VLAN render commutes with dropping the up-time lines. |
| Stability.CanonicalPortRender | internal/fastpath/textcfg.go:316-326 | So does the port render, on every tidy file. |
| Stability.CanonicalBytesDecideUpload | internal/fastpath/textcfg.go:308-326 | A file with the canonical bytes of a well-formed one is well-formed, too, and both are rendered to uploads with the same canonical lines. |
| Apply.Poll | internal/client/gs108tv2/apply.go:286-345 | One attempt is transient, drift or a match by whether it logs in, fetches, decodes cleanly, and Equals the plan in the checked namespaces. |
| Apply.WaitTransientAndVerify | internal/client/gs108tv2/apply.go:278-379 | Staged only if the last fetch matches, drift only for a clean decode, the deadline only when every attempt was transient and the time is up, and at most ceil(timeout / poll interval) attempts. A first answer that is no longer transient is always the result when its attempt is due before the deadline and the caller has not given up. |
| Apply.ApplyVLANState | internal/client/gs108tv2/apply.go:113-169 | Which of the outcomes an apply has, case by case: refused exactly on unrenderable states, stopped when the caller gave up, already staged exactly when the file reads as the desired state, not rendered exactly when a section is missing or the header is gone; what is uploaded is exactly the render of the fetched file. Staged means that a served file decoded without error to a state Equal to the desired one and to exactly the port settings of the fetched file; drift, that a clean one fails one of the two; a switch that comes up in time always ends the wait in one of them. |
| Apply.ApplyPortSettings | internal/client/gs108tv2/apply.go:206-259 | The same, case by case, for port settings; the VLAN state has to be that of the fetched file exactly when that file decoded without error. |
| Apply.VerdictMeans | internal/client/gs108tv2/apply.go:317-360 | The verdict on one answer of the switch in terms of what the file decodes to: transient exactly when it cannot be read, drift exactly when it reads as something else. |
| Apply.WellFormedRenders | internal/client/gs108tv2/codec.go:435-459 | A well-formed file with a header is always rendered, and keeps its first line. |
| Apply.TidyRenders | internal/client/gs108tv2/portcodec.go:127-147 | So is a tidy one by the port render. |
| Apply.ServedVlanUpload | internal/client/gs108tv2/apply.go:95-169 | A switch that serves the uploaded bodies, with the declarations grouped in any way, verifies exactly the expressible states; a port tagged in VLAN 1 stays transient for ever, a VLAN 1 without untagged ports is reported as drift. |
| Apply.CombiningSwitch | internal/client/gs108tv2/codec.go:332-336 | A switch that serves all declarations of the upload in one line is such a switch. |
| Apply.ServedPortUpload | internal/client/gs108tv2/apply.go:188-259 | The same for port uploads: grammar errors keep every poll transient, a setting asked of a missing section is drift. |
| Apply.ForeignGrammarIsNeverStaged | internal/client/gs108tv2/apply.go:78-86 | A port apply over vlan lines the codec refuses is never staged, nor drift, while the switch serves what was uploaded. |
| Factory.RefusedFile | internal/client/gs108tv2/codec.go:140-175 | The factory file with the line `vlan x` in its VLAN database is well-formed and headed, and the codec refuses that line. |
| Factory.PortOneOffIsNeverStaged | internal/client/gs108tv2/apply.go:78-86 | On that file turning port 1 off is rendered and uploaded, and while the switch serves back exactly the upload the apply can only run into its deadline or be cancelled. |
| VlanState.Normalize | internal/model/vlan_state.go:55-82 | Every VLAN covers every port, ids are their keys, nothing else changes. |
| PlanLaws.NormalizedMember | internal/model/vlan_state.go:55-82 | A membership in range is kept, a missing port becomes ignored, others are dropped. |
| VlanState.NormalizedIdempotent | internal/model/vlan_state.go:55-82 | Normalizing twice is normalizing once. |
| VlanState.Validate | internal/model/vlan_state.go:85-128 | No error exactly for valid states; each error names something really wrong. |
| PlanLaws.ValidityCases | internal/model/vlan_state.go:85-128 | A concrete valid state, and each single thing that makes it invalid. |
| VlanState.ValidPVIDs | internal/model/vlan_state.go:85-128 | A valid state has exactly one PVID per port and no others. |
| VlanState.Equal | internal/model/vlan_state.go:131-158 | Computes the comparison of the normalized states with its zero-valued map reads. |
| VlanState.EqualIsSameState | internal/model/vlan_state.go:131-158 | With no zero PVID on the left, Equal is sameness of the described switch. |
| VlanState.EqualDecidesSamenessIff | internal/model/vlan_state.go:257-267 | Equal decides sameness against every other state if and only if the left state has no zero PVID. |
| VlanState.AddedVLANs | internal/model/vlan_state.go:180-188 | The ids only the desired state has, ascending. |
| VlanState.RemovedVLANs | internal/model/vlan_state.go:191-199 | The ids only the current state has, ascending. |
| VlanState.PreserveRemovedVLANs | internal/model/vlan_state.go:202-221 | Keeps, in order, the removed ids that are no preserved port's PVID. |
| VlanState.PreservedPorts | internal/model/vlan_state.go:224-243 | The ports no VLAN carries, ascending. |
| VlanState.ValidStateCarriesAllPorts | internal/model/vlan_state.go:224-243 | A valid desired state preserves no port. |
| VlanState.BatchPVIDs | internal/model/vlan_state.go:246-255 | The ports of each PVID, ascending. |
| VlanPlan.Plan | internal/model/vlan_plan.go:110-185 | Errors exactly on invalid desired states; otherwise the five phases between the normalized states, none when they are Equal. |
| PlanLaws.PlanShape | internal/model/vlan_plan.go:110-185 | A plan that is not empty creates the added VLANs, writes the widest row of every desired VLAN, sets every PVID, writes the final row of every current VLAN and deletes what is left over with one op, in this order and each by ascending id. |
| VlanPlan.MergedMembership | internal/model/vlan_plan.go:258-264 | For every port in range the wider membership: untagged exactly when it is untagged in one of the rows, ignored exactly when it is in both. |
| VlanPlan.MinIs | internal/model/vlan_plan.go:266-277 | Untagged wins over tagged and tagged over ignored; a value the model does not know wins over all. |
| VlanPlan.MinKeepsMembers | internal/model/vlan_plan.go:266-277 | The minimum of two memberships is ignored only when both are. |
| VlanPlan.SplicePreservedPorts | internal/model/vlan_plan.go:196-209 | Each preserved port keeps its current membership in the VLAN of its current PVID. |
| PlanLaws.SplicedAre | internal/model/vlan_plan.go:196-209 | Entry by entry: a preserved port gets its current membership in the VLAN of its current PVID, which gets a row, its current one or an empty one, if it has none; every other entry stays. |
| VlanPlan.NothingPreserved | internal/model/vlan_plan.go:196-209 | For a valid desired state the preservation step changes nothing. |
| VlanPlan.IntersectVLANIDs | internal/model/vlan_plan.go:279-293 | The ids in both lists, ascending. |
| Convergence.SafeAtEveryWrite | internal/model/vlan_plan.go:110-236 | From any covering read, safe or not, over HTTP or NSDP, after every single write: a port whose PVID named a VLAN that carries it still has one, once the PVIDs have moved every port has one, kept memberships have not lapsed, and the next write finds what it needs. |
| Convergence.SafeStaysSafe | internal/model/vlan_plan.go:110-236 | From a safe switch every state on the way is safe. |
| Convergence.SafeOnceMoved | internal/model/vlan_plan.go:150-177 | Whatever the switch was, every port is safe after every write from the last PVID on. |
| Convergence.Converges | internal/model/vlan_plan.go:110-236 | From any covering read the whole plan reaches exactly the normalized desired state, whatever the PVIDs were. |
| Convergence.RestartsFromAnyPrefix | internal/model/vlan_plan.go:214-236 | From the state after any prefix, re-planning over either channel keeps every port that was safe at the start, finds at every write what it needs, and reaches the desired state. |
| Convergence.EmptyPlanIffEqual | internal/model/vlan_plan.go:126-129 | Whatever the current state is, the plan is empty if and only if the states are Equal; from a covering read, if and only if nothing differs. |
| Convergence.KeptRowsPassThroughTheMinimum | internal/model/vlan_plan.go:129-184 | From any covering read, the row of a VLAN in both states is its current row, then the row that is untagged where either is and ignored where both are, then its desired row, in this order and nothing else, and it is the widest row whenever a PVID moves. |
| Convergence.NothingRemovedOnlyGrows | internal/provider/resource_vlan_state.go:268-274 | When nothing is removed no delete op appears and the VLAN set only grows. |
| Convergence.PlanOfPart | internal/provider/nsdp_switch_transport.go:237-259 | A plan made from a part of the switch and run on the whole keeps safe and kept what the part shows, every write finds what it needs, every port is safe once the PVIDs have moved, and the run ends in the desired state if and only if every VLAN that was left out is a desired one. |
| Bits.PortBitmap | internal/nsdp/methods.go:60-68 | Bit N is set exactly when port N is in the list; other numbers are dropped; the bitmap of one port is 2 to the power of 8 minus the port. |
| Bits.BitIs | internal/nsdp/methods.go:60-68 | Port N is the bit of value 2^(8 - N), 0x80 for port 1 and 0x01 for port 8. |
| Bits.PortsFromBitmap | internal/nsdp/vlan.go:40-48 | The set bits as ascending port numbers. |
| Bits.SameBits | internal/nsdp/methods.go:60-68 | A bitmap is determined by its ports. |
| Wire.EncodeHeader | internal/nsdp/wire.go:49-71 | The 32-byte header and the extra byte at offset 32. |
| AgentLaws.HeaderBytes | internal/nsdp/wire.go:49-71 | Every byte of a concrete SET header and of a broadcast GET header. |
| AgentLaws.RegionBytes | internal/nsdp/wire.go:81-110 | Every byte behind the header of a GET of the name and of a SET of a PVID. |
| Wire.EncodeGetRequest | internal/nsdp/wire.go:81-89 | The attribute GET, entry by entry with its trailer. |
| Wire.EncodeTLVs | internal/nsdp/wire.go:96-110 | The TLV request with the first tag's high byte at offset 32. |
| Wire.EncodeBlockGetRequest | internal/nsdp/dump.go:60-65 | The block GET as a marker and a block entry. |
| Wire.EncodeReply | internal/nsdp/wire.go:172-186 | The reply that echoes the request's MACs and sequence number. |
| AgentLaws.ReplyByte | internal/nsdp/wire.go:172-186 | Command plus one, status and failing tag at their offsets, MACs and number copied. |
| Wire.WalkTLVs | internal/nsdp/wire.go:201-216 | The entries up to the terminator, the end, or the entry that is cut off. |
| Wire.WalkSeen | internal/nsdp/wire.go:201-216 | A walk over a region that is cut anywhere sees exactly the entries in front of the cut, up to the terminator's tag, and reports the cut when it is inside an entry. |
| Wire.WalkRequest | internal/nsdp/wire.go:96-110 | Every non-empty request walks back to exactly its TLV list. |
| Wire.WalkCutRequest | internal/nsdp/wire.go:96-110 | A non-empty request, as the agent reads it into its 4096 bytes, walks to exactly the entries that fit and precede one under the terminator's tag. |
| Wire.WalkEmptyRequest | internal/nsdp/wire.go:96-110 | A request without a TLV does not: the stray byte makes the walk end cut off. |
| Wire.WalkReply | internal/nsdp/wire.go:172-216 | Every reply walks back to exactly its TLV list. |
| Wire.WalkAttrRequest | internal/nsdp/wire.go:81-89 | An attribute GET walks cleanly to its tags and one more entry with tag 0. |
| Wire.BlockGetIsBlockRead | internal/nsdp/nsdptest/nsdptest.go:416-425 | A block GET is taken for a block read, of its block, if and only if the block id is not zero and its selector has at most 4056 bytes. |
| Wire.AttrGetIsNoBlockRead | internal/nsdp/nsdptest/nsdptest.go:416-425 | No attribute GET is ever taken for a block read, whatever tags it asks for and wherever it is cut. |
| Wire.OwnReplyParses | internal/nsdp/wire.go:253-293 | A client accepts the reply to its own request with the status and failing tag put in and the TLVs that fit its buffer. |
| Wire.OtherReplyIsDropped | internal/nsdp/wire.go:269-272 | A reply to a request with another command, sequence number, manager or agent is malformed for the exchange. |
| Wire.AcceptedIsOfExchange | internal/nsdp/wire.go:253-293 | For every packet: it is read, or taken for a refusal, if and only if it is long enough and its version, command, sequence number, magic and both MACs are those of the exchange; which of the two is decided by its status. |
| Wire.TakenFields | internal/nsdp/wire.go:276-310 | Status, failing tag and number of what is taken stand at their offsets; the token is announced exactly for status 0x0d when its length and all of its bytes are there. |
| Wire.BlockReadIs | internal/nsdp/nsdptest/nsdptest.go:416-425 | A block read is a clean walk of a marker, 0x0014 or 0x000f, and a tag whose low byte is 0 and whose high byte is not. |
| Wire.MismatchAnnouncesToken | internal/nsdp/wire.go:301-310 | The token an auth-mismatch reply announces is read back exactly. |
| Agent.FakeAgent.constructor | internal/nsdp/nsdptest/nsdptest.go:224-249 | A fresh agent holds the factory tables and the scripted small tags. |
| Agent.FakeAgent.RollNonce | internal/nsdp/nsdptest/nsdptest.go:610-617 | The byte-wise carry is adding one to the big-endian nonce. |
| Agent.FakeAgent.ApplyTLV | internal/nsdp/nsdptest/nsdptest.go:624-740 | A well-formed value changes the tables as its tag says, a malformed one changes nothing. |
| AgentLaws.ShapesTaken | internal/nsdp/nsdptest/nsdptest.go:624-740 | Which values are refused, tag by tag, with the numbers written out. |
| AgentLaws.EffectOf | internal/nsdp/nsdptest/nsdptest.go:624-740 | Which tables a value leaves alone, and what a PVID and a factory reset set. |
| AgentLaws.StoredIsAnswered | internal/nsdp/nsdptest/nsdptest.go:436-453 | A stored name or small value is answered under its tag. |
| AgentLaws.EntryBits | internal/nsdp/nsdptest/nsdptest.go:712-719 | A stored entry is tagged for the tagged members and untagged for the other members. |
| AgentLaws.PVIDBytesAt | internal/nsdp/nsdptest/nsdptest.go:501-506 | The PVID table on the wire, byte by byte. |
| AgentLaws.OtherTag | internal/nsdp/nsdptest/nsdptest.go:436-440 | Any other tag is looked up under its low byte. |
| AgentLaws.UnknownIsRefused | internal/nsdp/nsdptest/nsdptest.go:442-451 | A GET that nothing answers gets status 3 with its first tag. |
| AgentLaws.StrangerIsRefused | internal/nsdp/nsdptest/nsdptest.go:563-580 | A SET without the right token under tag 0x001a in front changes nothing and is answered with status 0x0d and the expected token. |
| AgentLaws.MalformedIsRefused | internal/nsdp/nsdptest/nsdptest.go:581-592 | A malformed value gets status 5 with its tag; the value in front of it is applied and the nonce stays. |
| AgentLaws.GarbageIsDropped | internal/nsdp/nsdptest/nsdptest.go:400-410 | A packet that is too short, or of another version, magic or command, changes nothing and gets no answer. |
| Agent.FakeAgent.HandleGet | internal/nsdp/nsdptest/nsdptest.go:416-453 | Block reads answer their table, other GETs the small tags that are known, in order; nothing changes. |
| Agent.FakeAgent.ReplyBlockGet | internal/nsdp/nsdptest/nsdptest.go:464-551 | The PVID table in one value, the 802.1Q table in one value per VLAN. |
| Agent.FakeAgent.HandleSet | internal/nsdp/nsdptest/nsdptest.go:563-592 | With the token of the current nonce the values are applied and the nonce rolls; a malformed value stops it; without the token nothing changes and the expected token is announced. |
| Agent.FakeAgent.Handle | internal/nsdp/nsdptest/nsdptest.go:400-410 | Garbage is dropped, GETs and SETs are told apart. |
| Session.OwnReply | internal/nsdp/nsdptest/nsdptest.go:400-592 | Every request of the client, cut to the buffer of the agent, yields the right state, and a reply that the client, behind its own buffer, accepts and that is no auth mismatch; there is none only for an unknown block or an answer longer than a datagram. |
| Session.AttrAnswered | internal/nsdp/nsdptest/nsdptest.go:426-453 | An attribute GET for any tag is answered with the known values of the tag and of tag 0, or refused with its tag when there is none. |
| Session.BlockAnswered | internal/nsdp/nsdptest/nsdptest.go:416-551 | A block GET is answered with the table; an unknown block is not, block id 0 is taken for an attribute GET, and a selector of more than 4056 bytes leaves only the marker, which is answered with the capability. |
| Session.ValueAppliedIff | internal/nsdp/nsdptest/nsdptest.go:563-592 | An authentic SET of one well-formed value is always acknowledged and rolls the nonce; the value is applied if and only if it has at most 4048 bytes and a tag other than the terminator's. |
| Session.LongNameIsLost | internal/nsdp/nsdptest/nsdptest.go:387-395 | A concrete SET that is acknowledged and dropped: a system name of 4049 bytes. |
| Session.MismatchIsAnswered | internal/nsdp/nsdptest/nsdptest.go:576-580 | A SET without the token of the current nonce changes nothing and is answered with a mismatch. |
| Session.StrayIsDropped | internal/nsdp/wire.go:269-275 | Whatever else arrives, a packet that is too short or has another MAC is not read. |
| Session.Link.Exchange | internal/nsdp/client.go:640-687 | A request is lost, or handled once as far as it fits the 4096 bytes of the agent; its window holds replies the agent once sent, none longer than a datagram, and any packets of others. |
| Session.WrappedReplyIsRead | internal/nsdp/client.go:633-637 | After 2^32 requests a stale reply is read as the current one: the bound on a session is needed. |
| Client.OnlyOwnIsRead | internal/nsdp/client.go:653-687 | Among late and repeated replies and packets of others, each read through the 4096 bytes of the client, a window yields the reply to its own request or nothing. |
| Client.Client.constructor | internal/nsdp/client.go:277-296 | A fresh client over a fresh link. |
| Client.Client.ReadReply | internal/nsdp/client.go:653-687 | The first packet of the window that, cut to 4096 bytes, has the command, number and both MACs of the exchange; nothing if and only if there is none. |
| Client.Client.NextSeq | internal/nsdp/client.go:633-637 | Numbers count up modulo 2^32. |
| Client.Client.Transact | internal/nsdp/client.go:640-687 | The agent does what it reads of the request exactly when it arrives, and what is read of its answer is the right part of the right answer. |
| Client.Client.GetAttr | internal/nsdp/client.go:400-435 | For every tag: the agent's value when it has at most 4060 bytes, a malformed reply when it is longer, its refusal of a tag nobody knows, or no answer when none is sent or after attempts none of which got through both ways, 5 for the capability and 14 for any other tag; the agent is unchanged. |
| Client.Client.GetBlock | internal/nsdp/dump.go:675-701 | For every block and selector: the entries of the agent's answer that fit 4096 bytes, no answer from an unknown block, a table longer than a datagram or after 14 attempts, or a request too long for a datagram; the agent is unchanged. |
| Client.Client.Login | internal/nsdp/client.go:332-394 | Changes nothing on the switch but the nonce, and fails only when something was lost or when the scripted answer to tag 0, which every attribute reply carries, too, leaves no room in a datagram. |
| Client.Client.RefreshToken | internal/nsdp/client.go:532-552 | Afterwards the cached token is that of the agent's nonce; it fails for the same two reasons only. |
| Client.LoginTags | internal/nsdp/token.go:99-108 | Bit 0x10 asks for the token under 0x001a, else bit 0x08 under 0x0018, and without both it is 0x000a. |
| Client.Client.SetRaw | internal/nsdp/client.go:602-628 | For every tag and value, whatever is lost, late or repeated: no SET that arrives is ever a mismatch, the value is applied at most once; without an error it was applied exactly once if and only if it has at most 4048 bytes and a tag other than the terminator's 0xFFFF; without loss only a malformed value or one too long for a datagram is an error. |
| VlanTables.UpsertIs | internal/nsdp/nsdptest/nsdptest.go:712-719 | Storing an entry keeps ids unique, sets its row and keeps every other row. |
| VlanTables.WithoutIs | internal/nsdp/nsdptest/nsdptest.go:720-731 | Deleting keeps ids unique and every other row. |
| VlanTables.StoredRow | internal/nsdp/methods.go:416-422 | The agent stores for a written row exactly the memberships of that row. |
| VlanTables.StepRefines | internal/nsdp/nsdptest/nsdptest.go:692-731 | One SET payload does to the tables what its write does to the abstract switch, and keeps ids unique. |
| VlanTables.PayloadsRefine | internal/provider/nsdp_switch_transport.go:272-318 | A log of SET payloads, played on the tables, decodes to the run of its writes. |
| Transport.SoundCovers | internal/provider/nsdp_switch_transport.go:155-215 | Tables with unique ids decode to a covering state, with any PVIDs. |
| SwitchRead.ReadBackRow | internal/nsdp/vlan.go:74-80 | An entry keeps its id and every membership over the wire, and no port comes back in both sets. |
| SwitchRead.Get8021QVLANs | internal/nsdp/vlan.go:87-108 | The first 508 of the agent's entries as they read back, in order, for up to 8183 entries, beyond which no reply comes. |
| SwitchRead.EntriesReadIff | internal/nsdp/vlan.go:93-108 | The list is read if and only if no value under the tag of the table is empty or of a length that is no multiple of 4; other tags do not matter. |
| SwitchRead.GetPVIDs | internal/nsdp/vlan.go:115-133 | One entry per port with the agent's PVID. |
| SwitchRead.ReadVLANState | internal/provider/nsdp_switch_transport.go:155-215 | Exactly what the first 508 entries of the tables decode to; an error only for a lost exchange, a table longer than a datagram, or an id that is in the entries twice. |
| SwitchRead.TableSeen | internal/nsdp/client.go:653-687 | Of the reply with the 802.1Q table a client sees exactly the first 508 entries; up to 8183 entries fit a datagram. |
| SwitchRead.ReadIsWholeIff | internal/nsdp/vlan.go:87-108 | With unique ids the state read is the whole state if and only if the table has at most 508 entries. |
| Transport.Vlan8021QPayload | internal/nsdp/methods.go:416-422 | Members are the tagged and the untagged ports, the tagged subset follows. |
| Transport.Set8021QVLAN | internal/nsdp/methods.go:404-409 | One row written at most once, exactly once without an error; refused as out of range, with nothing changed, exactly when the id is not in 0 to 4095. |
| Transport.SetPVID | internal/nsdp/methods.go:79-90 | One PVID written at most once, exactly once without an error; refused exactly when the port is not in 1 to 8 or the id not in 0 to 4095. |
| Transport.Delete8021QVLAN | internal/nsdp/methods.go:435-442 | One id deleted at most once, exactly once without an error; refused exactly when the id is not in 0 to 4095. |
| Transport.NsdpSwitchTransport.AddVLAN | internal/provider/nsdp_switch_transport.go:272-274 | Does nothing, which is what the plan needs of it. |
| Transport.NsdpSwitchTransport.SetMembership | internal/provider/nsdp_switch_transport.go:280-294 | Writes exactly the tagged and untagged ports of the row. |
| Transport.NsdpSwitchTransport.SetPVIDs | internal/provider/nsdp_switch_transport.go:299-306 | A prefix of the per-port writes, all of them without an error. |
| Transport.NsdpSwitchTransport.DeleteVLANs | internal/provider/nsdp_switch_transport.go:311-318 | A prefix of the per-id deletes, all of them without an error. |
| Transport.NsdpSwitchTransport.Run | internal/model/vlan_plan.go:214-236 | Whatever the link does, a prefix of the plan's writes is applied, all of them without an error. |
| Transport.NsdpSwitchTransport.ApplyVLANState | internal/provider/nsdp_switch_transport.go:237-259 | From any tables with unique ids, over a lossy link: the switch ends up after some prefix of the plan with every port that was seen safe still safe and no kept membership that was seen lapsed, ready for another apply. Without an error every port is safe, and the switch holds the desired state if and only if every entry behind the first 508 is one of a desired VLAN; with at most 508 entries all is seen. |
| Transport.SafeAfterEverySet | internal/provider/nsdp_switch_transport.go:237-318 | After every single SET of an apply every port that was seen safe still is, no kept membership that was seen has lapsed, and once the PVIDs have moved every port is safe; up to 508 entries all is seen. |
| Overfull.CrowdIsReached | internal/nsdp/nsdptest/nsdptest.go:693-719 | SETs of VLANs 2 to n bring the factory table to n entries. |
| Overfull.LastVlanIsLeft | internal/provider/nsdp_switch_transport.go:237-259 | With 509 entries the whole plan back to the factory state leaves VLAN 509 on the switch. |
| Tftp.TFTPPut | internal/fastpath/tftp.go:119-182 | The upload loop follows the sender machine event by event, packets sent included. |
| Tftp.KindWRQ | internal/fastpath/tftpserver.go:256-313 | The write-request loop follows the receiver machine. |
| Tftp.KindRRQ | internal/fastpath/tftpserver.go:209-254 | The read-request loop follows the sender machine. |
| Tftp.TFTPGet | internal/fastpath/tftp.go:66-104 | The download loop follows the receiver machine. |
| TftpProgress.PutWindows | internal/fastpath/tftp.go:139-180 | On every run, before each window of an upload the client sends its current block, once more each time. |
| TftpProgress.GetWindows | internal/fastpath/tftpserver.go:209-254 | So does the server of a download. |
| TftpProgress.PutAcks | internal/fastpath/tftpserver.go:256-313 | The receiver of an upload answers every window with the acknowledgement of the last block it took, and takes only the block it waits for. |
| TftpProgress.GetAcks | internal/fastpath/tftp.go:78-103 | The receiver of a download acknowledges every block that comes under its own number, and takes only the one it waits for. |
| TftpProgress.BlocksAre | internal/fastpath/tftp.go:141-149 | Block k is the bytes from 512 (k - 1) up to 512 k or the end, and the last block is the one that is shorter. |
| TftpProgress.ErrorEnds | internal/fastpath/tftp.go:165-168 | An error packet ends every loop but that of a read request, which takes it for a miss. |
| TftpProgress.OtherAnswersEnd | internal/fastpath/tftp.go:129-139 | Any other first answer than ACK 0 ends an upload, and anything but data ends a download. |
| TftpProgress.LastWindowEnds | internal/fastpath/tftp.go:158-178 | The last window of a block without its acknowledgement ends the sender, of uploads and of downloads, with nothing sent. |
| TftpProgress.SilentWait | internal/fastpath/tftpserver.go:262-282 | The receiver of an upload repeats its acknowledgement after every silent window and drops the upload after exactly as many as there are retries. |
| TftpProgress.PacketsReset | internal/fastpath/tftpserver.go:262-305 | Every packet but an error gives it all its windows back; one that is not the awaited block changes nothing else. |
| TftpProgress.UploadSucceeds | internal/fastpath/tftp.go:139-180 | When every block is acknowledged within the retries the upload ends well, whatever else its windows held, and has sent each block once per window. |
| TftpProgress.UploadGivesUp | internal/fastpath/tftp.go:139-180 | With as many misses as retries for one block it fails at that block, after that many copies. |
| TftpProgress.UploadEnds | internal/fastpath/tftp.go:119-182 | Over a link on which each copy arrives once or is lost, an upload of any length ends well on both sides, with exactly the data stored, when for each block fewer windows than retries fail, by loss of the block or of its acknowledgement; only the last acknowledgement has one chance. |
| TftpProgress.LastAckLost | internal/fastpath/tftpserver.go:286-300 | When the last acknowledgement is lost the client fails although the server has stored the data. |
| TftpGetProgress.DownloadServed | internal/fastpath/tftpserver.go:209-254 | When every block is acknowledged within the retries the server completes, and has sent each block once per window. |
| TftpGetProgress.DownloadEnds | internal/fastpath/tftp.go:66-104 | A download of any length ends well on both sides under the same condition; only the last acknowledgement has one chance, and the client, which never repeats, has to outwait the server. |
| TftpGetProgress.SilenceEndsGet | internal/fastpath/tftp.go:78-82 | One silent window ends a download. |
| TftpSafety.PutRunKeeps | internal/fastpath/tftp.go:119-182 | Over any run with loss, repetition and reordering the two block counters differ by at most one while sending and each side holds whole blocks of the data. |
| TftpSafety.PutRunIsTwoLoops | internal/fastpath/tftp.go:119-182 | Every run projects onto one run of each endpoint loop over the events its socket yielded, and what was ever sent is what the two loops sent. |
| TftpSafety.PutIsExactIff | internal/fastpath/tftpserver.go:256-313 | On every run the server stores only exactly the data and the client ends well only after the server has it all, if and only if the file has fewer than 65535 full blocks. |
| TftpSafety.StaleAcksEndPut | internal/fastpath/tftp.go:119-182 | With 65535 full blocks or more, stale acknowledgements let the client end well while the server still waits. |
| TftpGet.GetRunKeeps | internal/fastpath/tftpserver.go:209-254 | The same invariant for downloads. |
| TftpGet.GetRunIsTwoLoops | internal/fastpath/tftpserver.go:209-254 | The same for downloads. |
| TftpGet.GetIsExactIff | internal/fastpath/tftp.go:66-104 | On every run the client returns exactly the served bytes and the server reports completion only when the client has them, if and only if the file has fewer than 65536 full blocks. |
| TftpGet.StaleAcksEndGet | internal/fastpath/tftpserver.go:209-254 | With 65536 full blocks or more, stale acknowledgements let the server report completion while the client still waits. |
| Backup.ParseConfig | internal/cfg/config.go:52-90 | Exactly the checks of the format, in order. |
| Backup.VerdictMeans | internal/cfg/config.go:52-90 | Each error and the success in terms of the bytes: length, magic, length field, parity, checksum, in this order, and only then the records. |
| Backup.Checksum | internal/cfg/config.go:94-105 | The 32-bit sum never overflows up to 65537 words, and the result is then the payload as one big-endian number mod 65535. |
| Backup.ChecksumAdds | internal/cfg/config.go:94-105 | Additive over even concatenation. |
| Backup.WordChangeDetected | internal/cfg/config.go:94-105 | Replacing one aligned word goes unnoticed if and only if 0x0000 and 0xFFFF are exchanged. |
| Backup.ParseSections | internal/cfg/config.go:107-141 | The records of the payload in order, or the first fault. |
| Backup.SplitSectionBody | internal/cfg/config.go:143-157 | The body is the name, one NUL and the data, and the name has no NUL; without a NUL it is an error. |
| Backup.FirstFault | internal/cfg/config.go:107-134 | Which fault a record has: too few bytes, another tag, a length too long, no name, in this order. |
| Backup.FaultBehind | internal/cfg/config.go:107-141 | A fault behind good records fails the whole payload, with the same error. |
| Backup.RecordsAreBodies | internal/cfg/config.go:107-141 | Re-emitting the parsed records rebuilds the payload byte for byte. |
| Backup.EmittedIsParsed | internal/cfg/config.go:107-141 | Emitted records are parsed back, in order. |
| Backup.AcceptedIffEmitted | internal/cfg/config.go:107-141 | A payload is accepted if and only if it is a concatenation of tag-1 records with a NUL-terminated name. |
| Backup.FileIsParsed | internal/cfg/config.go:52-90 | A file built around any records of even length parses back to them. |
| Backup.ParsedIsFile | internal/cfg/config.go:52-90 | Every accepted file is, byte for byte, the file around its own records. |

## Left out

- TextCfg.ParseTextConfig: section line counts and the description and version annotations are not kept.
- Apply.ApplyVLANState: the login and fetch are one answer of the switch, the header annotation check and the reply to the upload are inputs.
- Apply.ApplyPortSettings: the same.
- Apply.WaitTransientAndVerify: cancellation, attempt durations and oversleeping are inputs; wall-clock time, HTTP sessions and the fetch's own header check are not modelled.
- RoundTrip.RenderedStateDecodes: VLAN ids are taken to fit the machine integer they are parsed into, as they do in the source.
- EditLaws.InsertThenDelete: for a block label and inert body lines; flat labels have no exit, and at the end of a file the blank-line style is not restored, so neither is covered.
- Agent.FakeAgent.constructor: the identity strings and the per-port tables are not seeded.
- Agent.FakeAgent.ApplyTLV: values for other tables than PVIDs, 802.1Q entries, system name and small tags are checked for form and dropped.
- Agent.FakeAgent.HandleGet: reads of the other tables get no answer, like those of unknown blocks.
- Agent.FakeAgent.ReplyBlockGet: serves the PVID and 802.1Q tables only.
- Session.BlockAnswered: the other tables count as unknown blocks.
- Client.Client.GetBlock: the same; markers other than version 2 are not sent.
- Client.Client.Transact: a session is bounded by 2^32 requests, because sequence numbers then repeat (Session.WrappedReplyIsRead); requests are lost but never delayed past a later one; the two 4096-byte receive buffers and the 65507 bytes of a datagram are the only limits on the size of a packet.
- SwitchRead.ReadVLANState: without the dialect and engine-mode guards (block 0x2000 is not served by the agent).
- Transport.NsdpSwitchTransport.ApplyVLANState: the same guards; a port whose PVID names a VLAN behind the first 508 entries is only promised to be safe once the PVIDs have moved.
- Tftp.KindWRQ: a store that refuses the data ends the session in silence, as the source has it; the store is not modelled.
- TftpSafety.PutIsExactIff: a client that ends well knows that the server accepted all bytes, not that its store kept them.
- HTTP sessions, cookies, multipart bodies and HTML pages (internal/fastpath/web.go, internal/client/gs108ev3) are I/O.
- Sockets, ports and the choice of transfer ids in TFTP: one session with one peer on a channel.
- TFTP packets are values, not bytes; file lookup errors end a session before the transfer starts.
- Token arithmetic (internal/nsdp/token.go) is an arbitrary function of capability, nonce, MAC and password.
- The v1 NSDP dialect, broadcast requests without an agent MAC, multi-tag batches (GetAttrs), and the agent's fault knobs other than reply loss.
- Bitwise operations on bytes are given by their eight bits.
- DecodeTLV, tag names, the single-field SET methods and RebootAndWait.
- PVIDs, VLANs and EthernetConfig of a backup: fixed-layout table reads.
- Section.LineCount, the header annotation fields, and ValidateTextConfigHeader beyond the magic (an input of Apply).
- SHA-256 and MD5 fingerprints, patch_lockout.py, tools/ and the Terraform schema and diagnostics.
- Unicode beyond the white space that unicode.IsSpace names; lines are sequences of characters.
