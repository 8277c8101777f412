# pjlib-util: buffers, packets and protocol state

A model of six pieces of pjlib-util that read and write buffers and keep protocol state in place, and proofs of
what they promise. `dafny verify dfyconfig.toml` checks the whole project.

- **DNS wire format** (`Dns*.dfy`). `DnsTypes` holds the structures of dns.h and packet memory: a byte for every
  position, because both passes over a name look behind the end of the packet. `DnsFormat` says what octets mean and
  which octets a record becomes; `DnsNames` and `DnsParser` (dns.c) and `DnsPrinter` (dns_server.c) are the code,
  proved against it. `DnsRoundTrip` puts the two halves together, `DnsHostNames` draws the consequences,
  `DnsChains` follows pointers in any number, `DnsLayout` gives the layout in numbers, `DnsQuery` and `DnsDup` are the
  query maker and the packet copier.
- **Telnet** (`Telnet.dfy`, `TelnetBuffers.dfy`). A session with its 256 options, two sessions joined by two FIFO
  channels, the line being edited, and the output waiting for the socket.
- **getopt** (`Getopt.dfy`, `GetoptDeclared.dfy`, `GetoptSign.dfy`). The scanner with its static variables and the in-place permutation of the vector.
- **CRC-32** (`Folds.dfy`, `Crc32Tables.dfy`, `Crc32.dfy`, `Crc32Contexts.dfy`). The shift register of section
  8.1.1.6.2 of ITU-T V.42 and the three builds of the context.
- **Base64** (`Base64.dfy`). Encoder and lenient decoder (sections 4 and 3.3 of RFC 4648).

State that the C code updates in place is a class or an array here. Each such method is tied to a function of its
inputs or of the old state, and the properties are proved of that function.

Where the code and what is promised of it part:

- The label table of `print_name` compares the text of a name with octets that hold length octets instead of dots
  (dns_server.c:221). A name of more than one label is found again only if every label behind the first has 46 octets
  (`DnsHostNames.FoundAgain`), and a name can be taken for a different one when a length octet is also a character
  (`DnsHostNames.FalseMatch`). Packets still come back under the condition of `DnsRoundTrip.RoundTrip`.
- `print_packet` does not count the type and class fields of queries against `size` (dns_server.c:402-412), and a
  pointer is written without looking at `size`: `DnsPrinter.OutgrowsExactly`, `DnsPrinter.TwoRootsOutgrow`.
  `pj_dns_make_query` checks for one or two octets fewer than it writes (`DnsQuery.QueryLength`). The model's buffers
  have that room, and the contracts say how much.
- `pj_dns_packet_dup` takes names for one another that differ behind a zero octet, since `pj_stricmp` uses
  `strncasecmp` (`DnsDup.ZeroHidesTheRest`, `DnsDup.DupIgnoresCaseExactly`).
- A name with an empty label, a trailing dot or a label over 191 octets is written without complaint but does not
  read back (`DnsWireNames.ReadsBack`).
- The Base64 decoder gives an octet too many when a text ends in something unknown that is not padding, unless its
  known characters fill whole groups (`Base64.LenientExactly`, `Base64.TrailingLineEndBreaksPadding`).
- A carriage return typed inside a line goes to its end while the cursor moves by one. If neither a line feed nor a
  zero follows, it stays there, and the backspace key takes another octet away (`TelnetKeys.ReturnIsErased`).
- A telnet command right behind a carriage return or an unfinished escape sequence is lost or misread
  (`TelnetSession.ParseWireOnlyFromNormal`).
- `_getopt_initialize` drops a leading `-` or `+` of the option string for the first call only; on later calls
  it counts as an option character (`GetoptSign.LaterCallDiffersExactly`, `GetoptSign.SignAccepted`).

## Model

| member | source | states |
|---|---|---|
| DnsRoundTrip.RoundTrip | app/src/main/cpp/pjlib-util/src/pjlib-util/dns_server.c:210-446 | main result: if the label table lies where 14-bit pointers reach it, what the parser reads from a printed packet is that packet, apart from rdlength, if and only if all its names are faithful: each is found in the label table under itself, or is written out and made of labels of 1 to 191 octets with no empty label and no trailing dot |
| DnsPrinter.PrintedParses | app/src/main/cpp/pjlib-util/src/pjlib-util/dns_server.c:368-446 | the same of the buffer print_packet has filled and pj_dns_parse_packet is given |
| DnsRoundTrip.ShortReaches | app/src/main/cpp/pjlib-util/src/pjlib-util/dns_server.c:226-232 | in packets of at most 0x4000 octets pointers reach every entry of the table |
| DnsHostNames.HostNamesRoundTrip | app/src/main/cpp/pjlib-util/src/pjlib-util/dns_server.c:210-446 | every packet of host names with labels of at most 44 octets comes back, with any number of records and repetitions |
| DnsHostNames.FalseMatch | app/src/main/cpp/pjlib-util/src/pjlib-util/dns_server.c:219-227 | a concrete packet with two legal names that does not come back: a length octet 45 reads as a hyphen and the second name is printed as a pointer to the first |
| DnsHostNames.FoundAgain | app/src/main/cpp/pjlib-util/src/pjlib-util/dns_server.c:219-232 | for every well-formed name: once in the table it is found again, and compressed, if and only if every label behind the first has 46 octets, the code of a dot; single labels always are |
| DnsHostNames.StoredHostName | app/src/main/cpp/pjlib-util/src/pjlib-util/dns_server.c:219-232 | among host names with labels of at most 44 octets the table finds an entry exactly for the same name, and only when it is a single label |
| DnsHostNames.StoredAtDot | app/src/main/cpp/pjlib-util/src/pjlib-util/dns_server.c:221-232 | where the text of an entry has its first dot, the octets compared have the length of the next label |
| DnsRoundTrip.NameReads | app/src/main/cpp/pjlib-util/src/pjlib-util/dns_server.c:210-269 | one printed name, pointer or labels, decodes to itself and takes up what was printed exactly when it is faithful, and then every table entry still decodes |
| DnsRoundTrip.PointerReads | app/src/main/cpp/pjlib-util/src/pjlib-util/dns.c:134-158 | a pointer of the printer leads the parser to the whole earlier name and takes up two octets |
| DnsRoundTrip.RrReads | app/src/main/cpp/pjlib-util/src/pjlib-util/dns_server.c:271-366 | one record comes back, with the length printed, if and only if its names are faithful |
| DnsRoundTrip.RrsRead | app/src/main/cpp/pjlib-util/src/pjlib-util/dns_server.c:415-443 | a section of any number of records comes back if and only if its names are faithful, the table growing from record to record |
| DnsRoundTrip.QueriesRead | app/src/main/cpp/pjlib-util/src/pjlib-util/dns_server.c:392-413 | the same for the queries |
| DnsRoundTrip.HeaderRead | app/src/main/cpp/pjlib-util/src/pjlib-util/dns_server.c:381-387 | the six header fields come back |
| DnsPrinter.LabelTab.Lookup | app/src/main/cpp/pjlib-util/src/pjlib-util/dns_server.c:219-223 | the loop stops at the first entry whose octets in the packet are the text of the name |
| DnsPrinter.LabelTab.Add | app/src/main/cpp/pjlib-util/src/pjlib-util/dns_server.c:229-234 | the new entry stands behind the others, which keep their places |
| DnsPrinter.PrintLabels | app/src/main/cpp/pjlib-util/src/pjlib-util/dns_server.c:237-268 | the buffer takes the wire form of the name and nothing else changes, unless it is longer than `size`; then and only then -1 |
| DnsPrinter.PrintName | app/src/main/cpp/pjlib-util/src/pjlib-util/dns_server.c:210-269 | pointer or labels as the table decides, the rest of the buffer unchanged, the table extended by at most this name, its entries still where they say; -1 only for labels that do not fit, a pointer never fails |
| DnsPrinter.PrintTarget | app/src/main/cpp/pjlib-util/src/pjlib-util/dns_server.c:324-338 | length and target name in the order on the wire although the length is written last; succeeds exactly when `size` holds them, with one octet to spare if the target is a bare root |
| DnsPrinter.PrintService | app/src/main/cpp/pjlib-util/src/pjlib-util/dns_server.c:340-358 | length, priority, weight, port and target in wire order although the length is written last; succeeds exactly when `size` holds them, with one octet to spare if the target is a bare root |
| DnsPrinter.PrintRr | app/src/main/cpp/pjlib-util/src/pjlib-util/dns_server.c:271-366 | the octets of one record and nothing else in the buffer; -1 exactly for a type it does not know or a `size` below the record and the octet a bare root wants to spare |
| DnsPrinter.PrintSection | app/src/main/cpp/pjlib-util/src/pjlib-util/dns_server.c:415-423 | a whole section, one record behind the other; of the spare octets only that of the last record matters |
| DnsPrinter.PrintQueries | app/src/main/cpp/pjlib-util/src/pjlib-util/dns_server.c:392-413 | the queries one behind the other; succeeds exactly when `size` holds their names and 4 octets more, and what is left of it counts the names only |
| DnsPrinter.PrintPacket | app/src/main/cpp/pjlib-util/src/pjlib-util/dns_server.c:368-446 | the result is the length of the wire form, and the buffer holds exactly that, if and only if all types are known and `size` is at least the length without 4 octets a query, plus what the last part wants to spare; otherwise -1 |
| DnsPrinter.OutgrowsExactly | app/src/main/cpp/pjlib-util/src/pjlib-util/dns_server.c:402-412 | the smallest `size` that will do is below the length of what is printed if and only if the packet has at least two queries, or one and a record |
| DnsPrinter.TwoRootsOutgrow | app/src/main/cpp/pjlib-util/src/pjlib-util/dns_server.c:402-412 | a packet of 23 octets that is printed when `size` is 19 |
| DnsWireNames.ReadsBack | app/src/main/cpp/pjlib-util/src/pjlib-util/dns.c:82-98 | main result on names: cutting into labels and decoding is the identity if and only if the name is well formed |
| DnsWireNames.WireDecodes | app/src/main/cpp/pjlib-util/src/pjlib-util/dns.c:118-244 | the wire form of a well-formed name decodes to the name at any nesting level, taking up all its octets |
| DnsWireNames.WireMisread | app/src/main/cpp/pjlib-util/src/pjlib-util/dns.c:118-244 | the wire form of any other name (empty label, trailing dot, label over 191 octets) never decodes to the name, whatever else the packet holds |
| DnsWireNames.DecodedDots | app/src/main/cpp/pjlib-util/src/pjlib-util/dns.c:188-244 | no packet at all decodes to a text without a dot or end within its first 192 octets |
| DnsNames.GetNameLen | app/src/main/cpp/pjlib-util/src/pjlib-util/dns.c:118-182 | for every memory and start, the measuring pass has the status of the decoded name and, on success, its text length and the octets it takes up; it ends on every input, pointer loops included |
| DnsNames.GetName | app/src/main/cpp/pjlib-util/src/pjlib-util/dns.c:188-244 | for every memory and start, the copying pass appends exactly the decoded text and has the same status |
| DnsNames.ReadName | app/src/main/cpp/pjlib-util/src/pjlib-util/dns.c:256-268 | what the first pass measures is what the second one fills: it succeeds with the same status in a buffer of exactly that size |
| DnsNames.NameLengthBound | app/src/main/cpp/pjlib-util/src/pjlib-util/dns.c:118-182 | a name read at nesting level n is shorter than the rest of the packet plus one packet length for each of the levels left |
| DnsNames.NameAtMostElevenPackets | app/src/main/cpp/pjlib-util/src/pjlib-util/dns.c:126-181 | a name is at most 11 times as long as the packet |
| DnsChains.ChainOfTen | app/src/main/cpp/pjlib-util/src/pjlib-util/dns.c:118-244 | main result: groups of labels anywhere in a packet, each ending in a pointer to the next, are read as the dotted join of all their labels if and only if there are at most ten pointers; an eleventh gives the name pointer error |
| DnsChains.ChainDecodes | app/src/main/cpp/pjlib-util/src/pjlib-util/dns.c:134-158 | from any nesting level, as long as the levels suffice, and only the octets of the first group are taken up |
| DnsChains.LevelBefore | app/src/main/cpp/pjlib-util/src/pjlib-util/dns.c:126-151 | what is read at one nesting level is read alike at the level before |
| DnsChains.NestedPointers | app/src/main/cpp/pjlib-util/src/pjlib-util/dns.c:203-222 | a pointer to a label and a pointer to com: the name is a.com |
| DnsChains.NameEndsInside | app/src/main/cpp/pjlib-util/src/pjlib-util/dns.c:166-176 | a name that is read lies in the packet, but for the second octet of a pointer at its very end |
| DnsChains.CutNameFails | app/src/main/cpp/pjlib-util/src/pjlib-util/dns.c:160-176 | a name cut off before its final zero is refused, wherever the cut is |
| DnsChains.PointerOutside | app/src/main/cpp/pjlib-util/src/pjlib-util/dns.c:146-147 | a pointer to the end of the packet or behind is refused |
| DnsParser.ParseQuery | app/src/main/cpp/pjlib-util/src/pjlib-util/dns.c:248-285 | name, type and class at the start, or the status of the name |
| DnsParser.ParseRr | app/src/main/cpp/pjlib-util/src/pjlib-util/dns.c:289-425 | the record at the start with all its checks in order: fields past the end, a class other than IN for the six known types, data past the end |
| DnsParser.ParseRdata | app/src/main/cpp/pjlib-util/src/pjlib-util/dns.c:353-421 | address, target, service or raw data by type; the known types ignore rdlength |
| DnsParser.ParseQueries | app/src/main/cpp/pjlib-util/src/pjlib-util/dns.c:466-480 | the queries one behind the other, or the first failure |
| DnsParser.ParseSection | app/src/main/cpp/pjlib-util/src/pjlib-util/dns.c:483-498 | the records one behind the other, or the first failure |
| DnsParser.ParsePacket | app/src/main/cpp/pjlib-util/src/pjlib-util/dns.c:431-540 | header, queries and the three sections in order, or the status of the first part that fails |
| DnsLayout.ByteOrder | app/src/main/cpp/pjlib-util/src/pjlib-util/dns_server.c:198-208 | numbers are sent most significant octet first, and read so |
| DnsLayout.HeaderLayout | app/src/main/cpp/pjlib-util/src/pjlib-util/dns_server.c:381-387 | the six header fields in the order of section 4.1.1 of RFC 1035 |
| DnsLayout.FixedLayout | app/src/main/cpp/pjlib-util/src/pjlib-util/dns_server.c:289-291 | type, class and time to live in this order behind the name |
| DnsLayout.RdlengthCounts | app/src/main/cpp/pjlib-util/src/pjlib-util/dns_server.c:301-355 | rdlength is the number of octets behind it |
| DnsLayout.ServiceLayout | app/src/main/cpp/pjlib-util/src/pjlib-util/dns_server.c:345-350 | priority, weight, port, target in this order |
| DnsLayout.TypesByNumber | app/src/main/cpp/pjlib-util/src/pjlib-util/dns.c:330-415 | types 1, 2, 5, 12, 28 and 33 are known, and which data each has |
| DnsLayout.TableRoom | app/src/main/cpp/pjlib-util/src/pjlib-util/dns_server.c:229-234 | a name not found is entered while there are fewer than 32 |
| DnsLayout.SampleWire | app/src/main/cpp/pjlib-util/src/pjlib-util/dns_server.c:368-446 | a packet with a record in every section, octet for octet |
| DnsLayout.RootTargetWants | app/src/main/cpp/pjlib-util/src/pjlib-util/dns_server.c:328-351 | two records whose data ends in a bare root need one octet more than they take |
| DnsLayout.RawRecordReads | app/src/main/cpp/pjlib-util/src/pjlib-util/dns.c:415-421 | a record of any other type and any class is read as it lies, up to the very end of the packet |
| DnsLayout.ForeignClassFails | app/src/main/cpp/pjlib-util/src/pjlib-util/dns.c:328-337 | a record of a known type in another class than IN is refused as such |
| DnsLayout.CutRecordFails | app/src/main/cpp/pjlib-util/src/pjlib-util/dns.c:314-351 | a record cut off anywhere behind its name is refused |
| DnsLayout.ShortPackets | app/src/main/cpp/pjlib-util/src/pjlib-util/dns.c:442-446 | fewer than 12 octets are no packet, and a header without counts is one |
| DnsQuery.MakeQuery | app/src/main/cpp/pjlib-util/src/pjlib-util/dns.c:56-112 | the two error returns leave buffer and size alone; otherwise the buffer takes the query's wire form and the size becomes its length |
| DnsQuery.InitHeader | app/src/main/cpp/pjlib-util/src/pjlib-util/dns.c:76-80 | identifier, the RD flag, one query and no records |
| DnsQuery.QueryHeader | app/src/main/cpp/pjlib-util/src/pjlib-util/dns.c:76-80 | the twelve octets: identifier, only the RD bit, one question |
| DnsQuery.QueryParses | app/src/main/cpp/pjlib-util/src/pjlib-util/dns.c:56-112 | main result: the query parses to exactly one question of class IN with the identifier, name and type asked for and no records, if and only if the name is well formed |
| DnsQuery.QueryLength | app/src/main/cpp/pjlib-util/src/pjlib-util/dns.c:69-73 | for every name the query is two octets longer than the length checked, or one when the name is empty or ends in a dot |
| DnsDup.NameTable.Apply | app/src/main/cpp/pjlib-util/src/pjlib-util/dns.c:547-577 | the first entry that compares alike, or the name itself, which is entered while there is room |
| DnsDup.CopyQuery | app/src/main/cpp/pjlib-util/src/pjlib-util/dns.c:579-586 | the query with its name taken from the table |
| DnsDup.CopyRr | app/src/main/cpp/pjlib-util/src/pjlib-util/dns.c:589-617 | the record with owner and SRV target taken from the table, the other targets and raw data exact |
| DnsDup.PacketDup | app/src/main/cpp/pjlib-util/src/pjlib-util/dns.c:622-699 | the sections the options leave in, copied one by one through one table, with counts that match |
| DnsDup.DupIsClose | app/src/main/cpp/pjlib-util/src/pjlib-util/dns.c:622-699 | main result: the copy has the chosen sections with exact counts and differs from the source in no more than names that compare alike |
| DnsDup.DupBySections | app/src/main/cpp/pjlib-util/src/pjlib-util/dns.c:653-698 | main result: bits 1, 2, 4 and 8 of the options each leave out their section and nothing else; every other section is that of the packet but for names that compare alike, the counts match, and identifier and flags are kept |
| DnsDup.NothingLeftOut | app/src/main/cpp/pjlib-util/src/pjlib-util/dns.c:653-698 | with no option every section is copied |
| DnsDup.DupIgnoresCaseExactly | app/src/main/cpp/pjlib-util/src/pjlib-util/dns.c:547-699 | main result: owner names, query names and SRV targets of the copy are those of the source ignoring case if and only if each offered name that compares alike to an earlier one among the first 16 new names is that one ignoring case |
| DnsDup.NoZeroIgnoresCase | app/src/main/cpp/pjlib-util/src/pjlib-util/dns.c:547-699 | so they are for every packet whose names hold no zero octet |
| DnsDup.DupExactly | app/src/main/cpp/pjlib-util/src/pjlib-util/dns.c:547-699 | main result: the copy equals the chosen sections if and only if each offered name that compares alike to an earlier one among the first 16 new names is spelled as that one |
| DnsDup.DupTable | app/src/main/cpp/pjlib-util/src/pjlib-util/dns.c:571-576 | at the end the table holds exactly the first 16 names that are new among those offered, or all of them |
| DnsDup.AlikeIgnoringCase | app/src/main/cpp/pjlib-util/src/pjlib-util/dns.c:557 | comparing alike is being equal ignoring case, if one of the names has no zero octet |
| DnsDup.AlikeChains | app/src/main/cpp/pjlib-util/src/pjlib-util/dns.c:557 | names alike the same name are alike each other |
| DnsDup.CaseIsAscii | app/src/main/cpp/pjlib-util/src/pjlib-util/dns.c:557 | only A to Z and a to z are told apart by case |
| DnsDup.ZeroHidesTheRest | app/src/main/cpp/pjlib-util/src/pjlib-util/dns.c:557-566 | a packet of two queries whose names differ behind a zero octet: its copy asks about the first name twice |
| TelnetNetwork.QuietMeansAgreed | app/src/main/cpp/pjlib-util/src/pjlib-util/cli_telnet.c:479-637 | main result: from fresh sessions, after any interleaving of requests and deliveries, whenever both channels are empty each option is enabled at both ends or disabled at both, and no end expects an answer |
| TelnetNetwork.NegotiationEnds | app/src/main/cpp/pjlib-util/src/pjlib-util/cli_telnet.c:479-637 | main result: once nobody asks any more, at most a computed number of commands is still exchanged |
| TelnetNetwork.WillingEndsEnable | app/src/main/cpp/pjlib-util/src/pjlib-util/cli_telnet.c:479-637 | an option both ends allow and either ever asked for is enabled at both when all is quiet |
| TelnetNetwork.StepMovesOneLane | app/src/main/cpp/pjlib-util/src/pjlib-util/cli_telnet.c:479-637 | each action moves one option on one side only, as two ends on two queues of their own would |
| TelnetNetwork.RunKeepsInv | app/src/main/cpp/pjlib-util/src/pjlib-util/cli_telnet.c:487-615 | the lane invariant, by which only three of the six states occur, holds throughout every run |
| TelnetNetwork.ReadsAreBounded | app/src/main/cpp/pjlib-util/src/pjlib-util/cli_telnet.c:544-615 | every run of deliveries alone is no longer than the work the state holds |
| OptionLane.AskKeepsInv | app/src/main/cpp/pjlib-util/src/pjlib-util/cli_telnet.c:487-511 | asking keeps the invariant of a lane, and between willing ends keeps the option from being forgotten |
| OptionLane.DeliverAKeepsInv | app/src/main/cpp/pjlib-util/src/pjlib-util/cli_telnet.c:544-615 | hearing a command keeps the invariant of a lane |
| OptionLane.DeliveryACosts | app/src/main/cpp/pjlib-util/src/pjlib-util/cli_telnet.c:544-615 | hearing a command uses up work even when it is answered |
| TelnetSession.Session.constructor | app/src/main/cpp/pjlib-util/src/pjlib-util/cli_telnet.c:1649 | every option starts disabled and not allowed |
| TelnetSession.Session.SetLocalOption | app/src/main/cpp/pjlib-util/src/pjlib-util/cli_telnet.c:639-644 | only the local permission of the one option changes |
| TelnetSession.Session.SetPeerOption | app/src/main/cpp/pjlib-util/src/pjlib-util/cli_telnet.c:646-651 | only the peer permission of the one option changes |
| TelnetSession.Session.SendTelnetCmd | app/src/main/cpp/pjlib-util/src/pjlib-util/cli_telnet.c:457-470 | three octets are sent: IAC, verb and option |
| TelnetSession.Session.SendEnableOption | app/src/main/cpp/pjlib-util/src/pjlib-util/cli_telnet.c:479-525 | one side of one option moves as the rule for asking says, and what the rule says is sent |
| TelnetSession.Session.ReceiveEnableOption | app/src/main/cpp/pjlib-util/src/pjlib-util/cli_telnet.c:532-573 | the move and answer to DO or WILL |
| TelnetSession.Session.ReceiveDisableOption | app/src/main/cpp/pjlib-util/src/pjlib-util/cli_telnet.c:580-617 | the move and answer to DONT or WONT |
| TelnetSession.Session.Receive | app/src/main/cpp/pjlib-util/src/pjlib-util/cli_telnet.c:619-637 | DO and DONT concern the local side, WILL and WONT the peer side; an unrequested change or a refusal is answered by exactly one command, anything else by none, and only that side of that option changes |
| OptionRules.Acknowledged | app/src/main/cpp/pjlib-util/src/pjlib-util/cli_telnet.c:532-617 | for the states that occur: the option is on afterwards exactly if the other end wants it and it is allowed or was not off, and an end that did not ask acknowledges every change and every refusal with the state that results, and nothing else |
| OptionRules.AskedTwice | app/src/main/cpp/pjlib-util/src/pjlib-util/cli_telnet.c:479-513 | only the first request of an option that is off is sent, and a second one before the answer takes back what is expected |
| OptionRules.HeldBack | app/src/main/cpp/pjlib-util/src/pjlib-util/cli_telnet.c:500-613 | the other three states: what they answer and what they hold back |
| TelnetSession.CommandAcknowledged | app/src/main/cpp/pjlib-util/src/pjlib-util/cli_telnet.c:532-637 | the answer in octets: 255, then 251 or 252 to DO and DONT and 253 or 254 to WILL and WONT, by what has become of the option, then the option |
| TelnetSession.RequestOctets | app/src/main/cpp/pjlib-util/src/pjlib-util/cli_telnet.c:479-525 | a request in octets: 251 for the local side, 253 for the peer |
| TelnetSession.Session.OnDataRead | app/src/main/cpp/pjlib-util/src/pjlib-util/cli_telnet.c:1494-1575 | one octet moves the parser, and a complete command takes effect at once |
| TelnetSession.ParseWire | app/src/main/cpp/pjlib-util/src/pjlib-util/cli_telnet.c:457-470 | what one end writes for any list of commands, the other end's parser hands on as that list |
| TelnetSession.ParseWireOnlyFromNormal | app/src/main/cpp/pjlib-util/src/pjlib-util/cli_telnet.c:1494-1575 | a command is read as sent if and only if the parser was in its normal state |
| TelnetLine.RecvBuf.Insert | app/src/main/cpp/pjlib-util/src/pjlib-util/cli_telnet.c:322-348 | the line left and right of the cursor after an insert, with cursor, length and end mark kept; refused exactly when the buffer is full |
| TelnetLine.RecvBuf.Backspace | app/src/main/cpp/pjlib-util/src/pjlib-util/cli_telnet.c:353-370 | the octet left of the cursor goes; refused exactly at the start |
| TelnetLine.RecvBuf.Left | app/src/main/cpp/pjlib-util/src/pjlib-util/cli_telnet.c:1121-1130 | the cursor moves left in an unchanged text, unless at the start |
| TelnetLine.RecvBuf.Right | app/src/main/cpp/pjlib-util/src/pjlib-util/cli_telnet.c:1108-1116 | the cursor moves right in an unchanged text, unless at the end |
| TelnetLine.InsertedWhere | app/src/main/cpp/pjlib-util/src/pjlib-util/cli_telnet.c:322-348 | a line takes 511 octets; 9, 13 and 63 go to its end, all others to the cursor |
| TelnetLine.ErasedWhere | app/src/main/cpp/pjlib-util/src/pjlib-util/cli_telnet.c:353-370 | the octet left of the cursor is the one that goes |
| TelnetLine.CursorMoves | app/src/main/cpp/pjlib-util/src/pjlib-util/cli_telnet.c:1108-1130 | the cursor moves by one, the right way |
| TelnetLine.BackspaceUndoesInsert | app/src/main/cpp/pjlib-util/src/pjlib-util/cli_telnet.c:322-370 | of the two functions by themselves: recv_buf_backspace undoes recv_buf_insert if and only if the octet is an ordinary one, or all to the right of the cursor is that same octet |
| TelnetKeys.Keyboard.OnDataRead | app/src/main/cpp/pjlib-util/src/pjlib-util/cli_telnet.c:1494-1575 | one octet moves the parser and edits the line at the cursor, for all octets but those that end in completion, execution or history |
| TelnetKeys.KeysInOctets | app/src/main/cpp/pjlib-util/src/pjlib-util/cli_telnet.c:1181-1220 | 27 91 68 moves left, 27 91 67 right, 127 is the backspace key |
| TelnetKeys.SequencesEnd | app/src/main/cpp/pjlib-util/src/pjlib-util/cli_telnet.c:1526-1574 | unknown sequences end where they should and leave the line alone |
| TelnetKeys.KeysAreUndone | app/src/main/cpp/pjlib-util/src/pjlib-util/cli_telnet.c:1505-1525 | typing that fits, anywhere in a line, is undone by as many backspace keys |
| TelnetKeys.ReturnIsErased | app/src/main/cpp/pjlib-util/src/pjlib-util/cli_telnet.c:1494-1511 | a carriage return without line feed or zero behind it stays in the line; the backspace key then restores the line if and only if there are only carriage returns right of the cursor |
| TelnetLine.TypingIsUndone | app/src/main/cpp/pjlib-util/src/pjlib-util/cli_telnet.c:322-370 | any typing that fits goes in at the cursor and is undone by as many backspaces |
| TelnetLine.CursorKeysKeepText | app/src/main/cpp/pjlib-util/src/pjlib-util/cli_telnet.c:1108-1130 | cursor keys keep the text and undo each other |
| TelnetOutput.Output.Send | app/src/main/cpp/pjlib-util/src/pjlib-util/cli_telnet.c:1234-1277 | what is handed over and what waits after a send, for each answer of the socket; waiting data is at most 256 octets, or 256 and the marker |
| TelnetOutput.Output.OnDataSent | app/src/main/cpp/pjlib-util/src/pjlib-util/cli_telnet.c:1451-1466 | waiting data is sent again as one message |
| TelnetOutput.StreamIsMessages | app/src/main/cpp/pjlib-util/src/pjlib-util/cli_telnet.c:1234-1467 | main result: over any run without partial sends, octets handed over and octets waiting are the messages in order, each whole, cut with one marker, or dropped |
| TelnetOutput.LossIsMarked | app/src/main/cpp/pjlib-util/src/pjlib-util/cli_telnet.c:1252-1268 | nothing is lost silently: a cut loses something and is marked, and only messages right behind a cut are dropped |
| TelnetOutput.SentWhere | app/src/main/cpp/pjlib-util/src/pjlib-util/cli_telnet.c:1246-1268 | what the socket takes never waits, and nothing overtakes what waits |
| TelnetOutput.NothingWaits | app/src/main/cpp/pjlib-util/src/pjlib-util/cli_telnet.c:1234-1467 | while the socket takes everything it has exactly the messages, and nothing waits |
| TelnetOutput.FlushHandsOver | app/src/main/cpp/pjlib-util/src/pjlib-util/cli_telnet.c:1453-1462 | once the socket is ready, what waits is handed over |
| TelnetOutput.RefusedIsKept | app/src/main/cpp/pjlib-util/src/pjlib-util/cli_telnet.c:1255-1268 | 256 octets are kept, then the text of the marker |
| TelnetOutput.PartialIsLost | app/src/main/cpp/pjlib-util/src/pjlib-util/cli_telnet.c:1269-1272 | of a partial send the rest is gone |
| Getopt.ScanAll | app/src/main/cpp/pjlib-util/src/pjlib-util/getopt.c:353-730 | main result: calling until -1 ends and leaves a permutation of the vector, options with their arguments first, operands behind, each in their old order; pj_optind points between |
| GetoptRun.RunPartitions | app/src/main/cpp/pjlib-util/src/pjlib-util/getopt.c:374-728 | the moved vector is the two parts the plain reading from left to right makes of the original, in order, with nothing lost |
| GetoptRun.Progress | app/src/main/cpp/pjlib-util/src/pjlib-util/getopt.c:374-728 | each call leaves fewer elements, or fewer characters of the current one, so that the run ends |
| GetoptDeclared.KindsAreDeclared | app/src/main/cpp/pjlib-util/src/pjlib-util/getopt.c:571-726 | main result on option strings: for every list of declarations without a colon, written as character and none, one or two colons, a character has the kind of its first declaration, or none |
| GetoptDeclared.CharacterScanned | app/src/main/cpp/pjlib-util/src/pjlib-util/getopt.c:689-728 | by its declaration: an option that always has an argument takes the text behind it or else the next element, one that perhaps has one only the text, one that never has one neither |
| GetoptDeclared.CharacterRefused | app/src/main/cpp/pjlib-util/src/pjlib-util/getopt.c:578-582 | a character that is not declared, or the colon, is reported |
| GetoptDeclared.ColonReportsMissing | app/src/main/cpp/pjlib-util/src/pjlib-util/getopt.c:713-720 | a leading colon changes the report of a missing argument and nothing else |
| GetoptDeclared.ClusterTakesExactly | app/src/main/cpp/pjlib-util/src/pjlib-util/getopt.c:571-728 | an element takes the next one if and only if its last character always has an argument and none before it can have one |
| GetoptDeclared.FirstElementReads | app/src/main/cpp/pjlib-util/src/pjlib-util/getopt.c:374-728 | the vector read from left to right: an option that always has an argument makes the next element its own, any other does not |
| GetoptDeclared.RealmIsTaken | app/src/main/cpp/pjlib-util/src/pjlib-util/getopt.c:704-725 | with r: the vector -r realm host has the one operand host |
| GetoptDeclared.LongScanned | app/src/main/cpp/pjlib-util/src/pjlib-util/getopt.c:514-551 | a long option by name: a required argument is the next element, an optional one never |
| GetoptDeclared.LongScannedWithText | app/src/main/cpp/pjlib-util/src/pjlib-util/getopt.c:518-531 | with text behind = that is the argument, unless the option has none |
| GetoptDeclared.LongElementReads | app/src/main/cpp/pjlib-util/src/pjlib-util/getopt.c:466-552 | the same for the reading of the vector |
| GetoptDeclared.Abbreviated | app/src/main/cpp/pjlib-util/src/pjlib-util/getopt.c:483-512 | a key that is no name is found if it begins one name only, and ambiguous if it begins two |
| GetoptDeclared.OperandReads | app/src/main/cpp/pjlib-util/src/pjlib-util/getopt.c:372-441 | a lone dash is an operand, two end the options |
| GetoptDeclared.SignOrders | app/src/main/cpp/pjlib-util/src/pjlib-util/getopt.c:279-292 | with + the run ends at the first operand, with - operands are handed back |
| GetoptSign.LaterCallDiffersExactly | app/src/main/cpp/pjlib-util/src/pjlib-util/getopt.c:277-294 | main result: with a `-` or `+` in front of the option string, a call after the first differs from the same call without the sign if and only if the option it decodes is the sign itself with another effect, or lacks an argument that a colon would report |
| GetoptSign.ShortShowsExactly | app/src/main/cpp/pjlib-util/src/pjlib-util/getopt.c:571-728 | the same of one short option, by what the string makes of its character |
| GetoptSign.LongShowsExactly | app/src/main/cpp/pjlib-util/src/pjlib-util/getopt.c:532-542 | the same of a long option: only the report of a missing argument differs |
| GetoptSign.SignAccepted | app/src/main/cpp/pjlib-util/src/pjlib-util/getopt.c:277-294 | with `+a` the option `-+` is refused without the sign and accepted with it |
| Getopt.Scanner.Next | app/src/main/cpp/pjlib-util/src/pjlib-util/getopt.c:353-730 | one call: its result, pj_optarg, pj_optopt, longind, and the options done, operands skipped and elements ahead |
| Getopt.Exchange | app/src/main/cpp/pjlib-util/src/pjlib-util/getopt.c:201-256 | the two adjacent blocks change places, order inside each and everything outside kept |
| Getopt.SwapBlocks | app/src/main/cpp/pjlib-util/src/pjlib-util/getopt.c:223-246 | two separate blocks of one length change places, everything else stays |
| Getopt.Scanner.ExchangeSegments | app/src/main/cpp/pjlib-util/src/pjlib-util/getopt.c:252-255 | the two marks delimit the non-options in their new place |
| Getopt.Scanner.Initialize | app/src/main/cpp/pjlib-util/src/pjlib-util/getopt.c:260-295 | the scan starts at pj_optind with nothing skipped, in the order the option string asks for |
| Getopt.Scanner.SkipOperands | app/src/main/cpp/pjlib-util/src/pjlib-util/getopt.c:378-401 | operands up to the next option join those skipped, without changing the order of anything |
| Getopt.Scanner.PassDashes | app/src/main/cpp/pjlib-util/src/pjlib-util/getopt.c:408-419 | a `--` joins the options and everything behind it the operands |
| Getopt.Scanner.Advance | app/src/main/cpp/pjlib-util/src/pjlib-util/getopt.c:374-448 | from the end of one element to the next option element, to an operand handed back, or to the end of the run |
| Getopt.MatchLong | app/src/main/cpp/pjlib-util/src/pjlib-util/getopt.c:483-504 | an exact name wins, otherwise the only name abbreviated, otherwise ambiguous or none |
| Getopt.Scanner.DoLong | app/src/main/cpp/pjlib-util/src/pjlib-util/getopt.c:466-566 | result, argument and progress of a long option |
| Getopt.Scanner.DoShort | app/src/main/cpp/pjlib-util/src/pjlib-util/getopt.c:571-728 | result, argument and progress of a short option |
| Getopt.Scanner.PassOption | app/src/main/cpp/pjlib-util/src/pjlib-util/getopt.c:466-728 | the elements the option takes move from those ahead to the options done |
| Crc32Spec.BurstErrorsAreDetected | app/src/main/cpp/pjlib-util/src/pjlib-util/crc32.c:206-219 | main result: two messages of one length that differ, but only inside a window of at most 32 consecutive bits, have different checksums |
| Crc32.ResidueIsFixed | app/src/main/cpp/pjlib-util/src/pjlib-util/crc32.c:156-183 | main result: every message followed by its checksum, lowest octet first, leaves the residue 0xDEBB20E3 |
| Crc32.PrefixShowsExactly | app/src/main/cpp/pjlib-util/src/pjlib-util/crc32.c:151-183 | octets in front of a message change its checksum unless they lead the preset register back to itself |
| Crc32.LeadingZerosShow | app/src/main/cpp/pjlib-util/src/pjlib-util/crc32.c:151-183 | one to four leading zeros always change the checksum |
| Crc32.CheckValues | app/src/main/cpp/pjlib-util/src/pjlib-util/crc32.c:234-242 | 0xCBF43926 for the digits 1 to 9, 0xD202EF8D for a zero |
| Crc32Steps.TablesHold | app/src/main/cpp/pjlib-util/src/pjlib-util/crc32.c:27-143 | each of the 256 entries is eight shift steps of its index, in both tables, the second in the other byte order |
| Crc32Steps.TableStepIsShift8 | app/src/main/cpp/pjlib-util/src/pjlib-util/crc32.c:168 | one table step is eight shifts of the register |
| Crc32Spec.WordIsFourOctets | app/src/main/cpp/pjlib-util/src/pjlib-util/crc32.c:166-174 | combining a whole word and taking 32 shifts is taking in its four octets one by one |
| Crc32Spec.FeedIsBits | app/src/main/cpp/pjlib-util/src/pjlib-util/crc32.c:206-219 | octet by octet is bit by bit, lowest bit first |
| Crc32Steps.BigSteps | app/src/main/cpp/pjlib-util/src/pjlib-util/crc32.c:83-89 | a big-endian table step on the swapped register is the swapped little-endian step |
| Crc32.FeedAppend | app/src/main/cpp/pjlib-util/src/pjlib-util/crc32.c:156-183 | a message fed in two pieces is fed at once |
| Crc32.FeedJoins | app/src/main/cpp/pjlib-util/src/pjlib-util/crc32.c:156-183 | a message fed in any number of pieces is fed at once |
| Crc32.TableContext.Update | app/src/main/cpp/pjlib-util/src/pjlib-util/crc32.c:156-183 | for every state, message and start alignment the table build feeds the message octet by octet, its register complemented |
| Crc32.BigEndianContext.Update | app/src/main/cpp/pjlib-util/src/pjlib-util/crc32.c:156-188 | the same on a big-endian machine, its register in the other byte order |
| Crc32.BitwiseContext.Update | app/src/main/cpp/pjlib-util/src/pjlib-util/crc32.c:199-223 | the build without tables feeds the message octet by octet |
| Crc32.ShiftOctet | app/src/main/cpp/pjlib-util/src/pjlib-util/crc32.c:210-218 | shifting the low octet alone and combining the rest is an octet step of the whole register |
| Crc32.BitwiseContext.Final | app/src/main/cpp/pjlib-util/src/pjlib-util/crc32.c:225-229 | the complement is stored and returned |
| Crc32.CalcTable | app/src/main/cpp/pjlib-util/src/pjlib-util/crc32.c:234-242 | the checksum of the whole message, whatever its address |
| Crc32.CalcBigEndian | app/src/main/cpp/pjlib-util/src/pjlib-util/crc32.c:234-242 | the same checksum on a big-endian machine |
| Crc32.CalcBitwise | app/src/main/cpp/pjlib-util/src/pjlib-util/crc32.c:234-242 | the same checksum without tables |
| Crc32.CalcTablePieces | app/src/main/cpp/pjlib-util/src/pjlib-util/crc32.c:151-188 | updates with any number of pieces at any addresses, then final: the checksum of the whole |
| Crc32.CalcBigEndianPieces | app/src/main/cpp/pjlib-util/src/pjlib-util/crc32.c:151-188 | the same on a big-endian machine |
| Crc32.CalcBitwisePieces | app/src/main/cpp/pjlib-util/src/pjlib-util/crc32.c:193-229 | the same without tables |
| Base64.DecodeEncode | app/src/main/cpp/pjlib-util/src/pjlib-util/base64.c:37-170 | main result: decoding undoes encoding on every string of octets |
| Base64.EncodeDecodeExactly | app/src/main/cpp/pjlib-util/src/pjlib-util/base64.c:37-170 | main result: encoding undoes decoding on a text if and only if the text is canonical |
| Base64.LenientExactly | app/src/main/cpp/pjlib-util/src/pjlib-util/base64.c:134-158 | decoding a text is decoding it without its unknown characters if and only if, without trailing padding, it ends in a known character or its known characters fill whole groups |
| Base64.TrailingLineEndBreaksPadding | app/src/main/cpp/pjlib-util/src/pjlib-util/base64.c:142-158 | a padded text with a line end behind it decodes to an octet too many |
| Base64.DecodedLengthBound | app/src/main/cpp/pjlib-util/src/pjlib-util/base64.c:139-167 | the result fits the room asked for, three quarters of the text |
| Base64.RoomIsUsed | app/src/main/cpp/pjlib-util/src/pjlib-util/base64.c:139-167 | and is all of it when all characters are known |
| Base64.RoomAsked | app/src/main/cpp/pjlib-util/src/pjlib-util/base64.c:90-91 | the room the encoder asks for is 3, 0 or 1 more than it uses |
| Base64.AlphabetIsStandard | app/src/main/cpp/pjlib-util/src/pjlib-util/base64.c:27-35 | the alphabet of table 1 of RFC 4648 |
| Base64.SameBits | app/src/main/cpp/pjlib-util/src/pjlib-util/base64.c:58-78 | the 24 bits of a group in order |
| Base64.Encode | app/src/main/cpp/pjlib-util/src/pjlib-util/base64.c:81-121 | the encoded text stands at the start of the output and the rest is unchanged; too little room changes nothing |
| Base64.EncodeGroup | app/src/main/cpp/pjlib-util/src/pjlib-util/base64.c:94-114 | one group of up to three octets gives the four characters that begin the encoding of the rest |
| Base64.Base256To64 | app/src/main/cpp/pjlib-util/src/pjlib-util/base64.c:58-78 | the four characters are written in place |
| Base64.Decode | app/src/main/cpp/pjlib-util/src/pjlib-util/base64.c:124-170 | the decoded octets stand at the start of the output and the rest is unchanged; too little room changes nothing |
| Base64.FillGroup | app/src/main/cpp/pjlib-util/src/pjlib-util/base64.c:143-148 | up to four slots are filled with what the rest of the text begins with |
| Base64.PutGroup | app/src/main/cpp/pjlib-util/src/pjlib-util/base64.c:150-163 | the octets of one group are written and nothing else |

## Left out

- DnsRoundTrip.RoundTrip: packets with one of the 32 table entries beyond 0x4000, where a pointer is cut to 14 bits and leads to other octets; the only caller of print_packet allows 1500 octets (dns_server.c:547). The rdlength field is the printer's choice and not compared.
- DnsPrinter.PrintPacket: takes packets of class IN, as the code asserts, and a buffer with 4 octets a query and 2 more to spare; the contents of the buffer after a failure are not described.
- DnsQuery.MakeQuery: the buffer has two octets more than the length checked.
- DnsNames.GetName: what the buffer holds behind the text.
- DnsDup.PacketDup: allocation failure, and which copies share one string.
- TelnetNetwork.QuietMeansAgreed: the channels lose nothing, although the output buffer can cut a command when the socket refuses data; permissions are fixed once negotiation starts.
- TelnetSession.Session.OnDataRead: what the other octets do to the line, given here as whether the line took the octet; TelnetKeys.Keyboard.OnDataRead has that half.
- TelnetKeys.Keyboard.OnDataRead: completion on tab and question mark, execution on return and the history keys, which replace the line, and echo and bell.
- TelnetOutput.StreamIsMessages: partial sends, after which the session is given up.
- Getopt.ScanAll: option strings that ask for `-W` (`W;`), other orderings than PERMUTE, and long options whose value is -1, which cannot be told from the end.
- Getopt.Scanner.Next: a caller that starts over by setting pj_optind to 0 (getopt.c:360-366), which here is a new scanner, calling again after -1, the store through a long option's flag pointer, long_only (no caller sets it), and characters that are negative as a signed char.
- Crc32.TableContext.Update: the address only as its alignment.
- Base64.Encode: lengths near the limits of int.
- Socket, active socket, ioqueue, mutex, timers, pools and logging: the socket is its answer to a send, allocation a fresh object.
- The DNS server's record list and answer assembly, and the DNS resolver's cache and timers.
- Telnet command history, tab completion, prompts and hints; the up and down keys.
- http_client.c, cli.c, cli_console.c, hmac_md5.c and hmac_sha1.c: the hashes, scanner, XML parser and hash table they rest on are not part of this model.
- pjsua_aud.c, pjsua_media.c and pjsua_vid.c, where every line is commented out; errno.c and dns_dump.c, which would add easy members only.
